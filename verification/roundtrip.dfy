/**
 Writing the settings and reading the file back: the reader recovers, per
 section, each setting's name and written value, and loading that into
 lists of the same settings restores every value.
 */
module RoundTrip {
  import opened Wrappers
  import opened Text
  import opened IntText
  import opened IniData
  import opened Settings
  import opened Load
  import opened Render
  import opened IniReader

  /** A setting whose texts survive being written out as INI lines. */
  predicate Writable(s: Setting) {
    PlainKey(s.name) && OneLine(s.desc) && OneLine(s.opts)
  }

  predicate WritableList(settings: seq<Setting>) {
    (forall i :: 0 <= i < |settings| ==> Writable(settings[i])) && DistinctNames(settings)
  }

  /** The entries one section holds once the blocks of `settings` are read, later names winning. */
  function Assignments(settings: seq<Setting>): map<string, string> {
    if |settings| == 0 then map[]
    else
      var last := settings[|settings| - 1];
      Assignments(settings[..|settings| - 1])[last.name := IntToString(last.val)]
  }

  /** With distinct names, each setting's own name holds the value written for it. */
  lemma {:induction false} AssignmentsAt(settings: seq<Setting>, i: nat)
    requires DistinctNames(settings) && i < |settings|
    ensures Value(Assignments(settings), settings[i].name) == IntToString(settings[i].val)
    decreases |settings|
  {
    var init := settings[..|settings| - 1];
    if i < |settings| - 1 {
      assert init[i] == settings[i];
      AssignmentsAt(init, i);
    }
  }

  /** Reading one block stores the setting's value under its name in the open section. */
  lemma ReadSettingBlock(st: ReaderState, s: Setting)
    requires Writable(s)
    ensures ReadLines(st, SettingLines(s))
         == ReaderState(st.section,
              st.ini[st.section := Section(st.ini, st.section)[s.name := IntToString(s.val)]])
  {
    var c1, c2, asg := "; " + s.desc, "; " + s.opts, AssignmentLine(s);
    var l := SettingLines(s);
    assert l == [c1, c2, asg, ""];
    ReadComment(st, s.desc);
    ReadComment(st, s.opts);
    ReadAssignment(st, s.name, IntToString(s.val));
    var after := ReadLine(st, asg);
    assert l[1..] == [c2, asg, ""];
    assert ReadLines(st, l) == ReadLines(st, [c2, asg, ""]);
    assert [c2, asg, ""][1..] == [asg, ""];
    assert ReadLines(st, [c2, asg, ""]) == ReadLines(st, [asg, ""]);
    assert [asg, ""][1..] == [""];
    assert ReadLines(st, [asg, ""]) == ReadLines(after, [""]);
    assert ReadLines(after, [""]) == ReadLines(after, []);
  }

  lemma UnionUpdate(m: map<string, string>, a: map<string, string>, k: string, v: string)
    ensures (m + a)[k := v] == m + a[k := v]
  {
  }

  lemma OverwriteSection(ini: Ini, sec: string, x: map<string, string>, y: map<string, string>)
    ensures ini[sec := x][sec := y] == ini[sec := y]
  {
  }

  lemma {:induction false} ReadSettingsLines(st: ReaderState, settings: seq<Setting>)
    requires st.section in st.ini
    requires forall i :: 0 <= i < |settings| ==> Writable(settings[i])
    ensures ReadLines(st, SettingsLines(settings))
         == ReaderState(st.section, st.ini[st.section := st.ini[st.section] + Assignments(settings)])
    decreases |settings|
  {
    var sec := st.section;
    if |settings| == 0 {
      assert st.ini[sec] + map[] == st.ini[sec];
      assert st.ini[sec := st.ini[sec]] == st.ini;
    } else {
      var init := settings[..|settings| - 1];
      var s := settings[|settings| - 1];
      ReadLinesAppend(st, SettingsLines(init), SettingLines(s));
      ReadSettingsLines(st, init);
      var mid := ReaderState(sec, st.ini[sec := st.ini[sec] + Assignments(init)]);
      ReadSettingBlock(mid, s);
      var v := IntToString(s.val);
      assert Section(mid.ini, sec) == st.ini[sec] + Assignments(init);
      UnionUpdate(st.ini[sec], Assignments(init), s.name, v);
      OverwriteSection(st.ini, sec, st.ini[sec] + Assignments(init), st.ini[sec] + Assignments(settings));
    }
  }

  lemma ReadHead()
    ensures ReadLines(ReaderState("", map[]), [Title, "", "[frontend]"])
         == ReaderState(FrontendSection, map[FrontendSection := map[]])
  {
    var head: seq<string> := [Title, "", "[frontend]"];
    var st := ReaderState("", map[]);
    var header := "[frontend]";
    assert Title[0] == ';';
    assert ReadLine(st, Title) == st;
    assert ReadLine(st, "") == st;
    assert header[1..|header| - 1] == FrontendSection;
    var st1 := ReaderState(FrontendSection, map[FrontendSection := map[]]);
    assert ReadLine(st, header) == st1;
    assert head[1..] == ["", header] && head[1..][1..] == [header];
    assert ReadLines(st, head) == ReadLines(st, ["", header]);
    assert ReadLines(st, ["", header]) == ReadLines(st, [header]);
    assert ReadLines(st, [header]) == ReadLines(st1, []);
  }

  lemma SectionNamesDiffer()
    ensures FrontendSection != CoreSection
  {
    assert FrontendSection[0] != CoreSection[0];
  }

  lemma ReadCoreHeader(ini: Ini)
    requires CoreSection !in ini
    ensures ReadLines(ReaderState(FrontendSection, ini), ["[nestopia]"])
         == ReaderState(CoreSection, ini[CoreSection := map[]])
  {
    var header := "[nestopia]";
    assert header[1..|header| - 1] == CoreSection;
    var st := ReaderState(FrontendSection, ini);
    assert ReadLine(st, header) == ReaderState(CoreSection, ini[CoreSection := map[]]);
    assert ReadLines(st, [header]) == ReadLines(ReadLine(st, header), []);
  }

  lemma EmptyUnion(m: map<string, string>)
    ensures map[] + m == m
  {
  }

  lemma ReadFrontendSettings(frontend: seq<Setting>)
    requires forall i :: 0 <= i < |frontend| ==> Writable(frontend[i])
    ensures ReadLines(ReaderState(FrontendSection, map[FrontendSection := map[]]), SettingsLines(frontend))
         == ReaderState(FrontendSection, map[FrontendSection := Assignments(frontend)])
  {
    var none: map<string, string> := map[];
    var st := ReaderState(FrontendSection, map[][FrontendSection := none]);
    ReadSettingsLines(st, frontend);
    EmptyUnion(Assignments(frontend));
    OverwriteSection(map[], FrontendSection, none, Assignments(frontend));
  }

  lemma ReadFrontendPart(frontend: seq<Setting>)
    requires forall i :: 0 <= i < |frontend| ==> Writable(frontend[i])
    ensures ReadLines(ReaderState("", map[]), [Title, "", "[frontend]"] + SettingsLines(frontend))
         == ReaderState(FrontendSection, map[FrontendSection := Assignments(frontend)])
  {
    ReadLinesAppend(ReaderState("", map[]), [Title, "", "[frontend]"], SettingsLines(frontend));
    ReadHead();
    ReadFrontendSettings(frontend);
  }

  lemma ReadCorePart(ini: Ini, core: seq<Setting>)
    requires CoreSection !in ini
    requires forall i :: 0 <= i < |core| ==> Writable(core[i])
    ensures ReadLines(ReaderState(FrontendSection, ini), ["[nestopia]"] + SettingsLines(core))
         == ReaderState(CoreSection, ini[CoreSection := Assignments(core)])
  {
    ReadLinesAppend(ReaderState(FrontendSection, ini), ["[nestopia]"], SettingsLines(core));
    ReadCoreHeader(ini);
    var none: map<string, string> := map[];
    var st := ReaderState(CoreSection, ini[CoreSection := none]);
    ReadSettingsLines(st, core);
    EmptyUnion(Assignments(core));
    OverwriteSection(ini, CoreSection, none, Assignments(core));
  }

  lemma ReadLayout(frontend: seq<Setting>, core: seq<Setting>)
    requires forall i :: 0 <= i < |frontend| ==> Writable(frontend[i])
    requires forall i :: 0 <= i < |core| ==> Writable(core[i])
    ensures ReadLines(ReaderState("", map[]), WriteLines(frontend, core)).ini
         == map[FrontendSection := Assignments(frontend)][CoreSection := Assignments(core)]
  {
    var mid: seq<string> := ["[nestopia]"];
    var front := [Title, "", "[frontend]"] + SettingsLines(frontend);
    var back := mid + SettingsLines(core);
    AppendAssociates(front, mid, SettingsLines(core));
    assert WriteLines(frontend, core) == front + back;
    var start := ReaderState("", map[]);
    ReadLinesAppend(start, front, back);
    ReadFrontendPart(frontend);
    var ini := map[FrontendSection := Assignments(frontend)];
    assert ReadLines(start, front) == ReaderState(FrontendSection, ini);
    SectionNamesDiffer();
    assert CoreSection !in ini;
    ReadCorePart(ini, core);
  }

  /** The reader recovers, per section, what the writer wrote. */
  lemma ParseWrite(frontend: seq<Setting>, core: seq<Setting>)
    requires forall i :: 0 <= i < |frontend| ==> Writable(frontend[i])
    requires forall i :: 0 <= i < |core| ==> Writable(core[i])
    ensures Parse(Write(frontend, core))
         == map[FrontendSection := Assignments(frontend)][CoreSection := Assignments(core)]
  {
    WriteSplitsIntoLayout(frontend, core);
    ReadLayout(frontend, core);
  }

  /**
   Loading a section made of the assignments written for `settings` into a
   list of the same settings, whatever their values, restores `settings`.
   */
  lemma LoadAssignments(settings: seq<Setting>, before: seq<Setting>)
    requires DistinctNames(settings) && AllInRange(settings)
    requires SameShape(before, settings)
    ensures LoadSection(Assignments(settings), before) == Loaded(settings, None)
  {
    var entries := Assignments(settings);
    forall i | 0 <= i < |before|
      ensures LoadOne(entries, before[i]) == Success(settings[i])
    {
      AssignmentsAt(settings, i);
      StoIOfIntToString(settings[i].val);
      LoadOneCases(entries, before[i]);
    }
    LoadSectionCompletes(entries, before);
    LoadSectionCompleted(entries, before);
    var r := LoadSection(entries, before);
    assert r.settings == settings;
  }

  /**
   What `write` produces, read back by `read` into lists of the same
   settings (whatever values they held), restores every value, and no
   exception is thrown.
   */
  lemma WriteThenRead(frontend: seq<Setting>, core: seq<Setting>,
                      frontendBefore: seq<Setting>, coreBefore: seq<Setting>)
    requires WritableList(frontend) && WritableList(core)
    requires AllInRange(frontend) && AllInRange(core)
    requires SameShape(frontendBefore, frontend) && SameShape(coreBefore, core)
    ensures Read(Parse(Write(frontend, core)), frontendBefore, coreBefore)
         == ReadResult(frontend, core, None)
  {
    var ini := Parse(Write(frontend, core));
    ParseWrite(frontend, core);
    SectionNamesDiffer();
    assert Section(ini, FrontendSection) == Assignments(frontend);
    assert Section(ini, CoreSection) == Assignments(core);
    LoadAssignments(frontend, frontendBefore);
    LoadAssignments(core, coreBefore);
    assert LoadSection(Section(ini, FrontendSection), frontendBefore) == Loaded(frontend, None);
    assert LoadSection(Section(ini, CoreSection), coreBefore) == Loaded(core, None);
  }
}
