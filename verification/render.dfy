/**
 The text `SettingManager::write` puts into `nestopia.conf`: a title line and
 a blank line, then `[frontend]` and one block per frontend setting, then
 `[nestopia]` and one block per emulator core setting.
 */
module Render {
  import opened Text
  import opened IntText
  import opened Settings

  const Title: string := "; Nestopia UE Configuration File"

  /** The line that assigns a setting its value. */
  function AssignmentLine(s: Setting): string {
    s.name + " = " + IntToString(s.val)
  }

  /** One setting's block: its description and options as comments, its assignment, a blank line. */
  function SettingText(s: Setting): string {
    Line("; " + s.desc) + Line("; " + s.opts) + Line(AssignmentLine(s)) + Line("")
  }

  /** The blocks of `settings`, in list order. */
  function SettingsText(settings: seq<Setting>): string {
    if |settings| == 0 then ""
    else SettingsText(settings[..|settings| - 1]) + SettingText(settings[|settings| - 1])
  }

  /** The whole file, as the output stream receives it. */
  function Write(frontend: seq<Setting>, core: seq<Setting>): string {
    Line(Title) + Line("") + Line("[frontend]") + SettingsText(frontend)
      + Line("[nestopia]") + SettingsText(core)
  }

  /** One setting's block as lines. */
  function SettingLines(s: Setting): seq<string> {
    ["; " + s.desc, "; " + s.opts, AssignmentLine(s), ""]
  }

  function SettingsLines(settings: seq<Setting>): (lines: seq<string>)
    ensures |lines| == 4 * |settings|
  {
    if |settings| == 0 then []
    else SettingsLines(settings[..|settings| - 1]) + SettingLines(settings[|settings| - 1])
  }

  /** The file's layout, line by line. */
  function WriteLines(frontend: seq<Setting>, core: seq<Setting>): seq<string> {
    [Title, "", "[frontend]"] + SettingsLines(frontend) + ["[nestopia]"] + SettingsLines(core)
  }

  /** None of the three texts of a setting that are written out holds a line feed. */
  predicate OneLineFields(s: Setting) {
    OneLine(s.name) && OneLine(s.desc) && OneLine(s.opts)
  }

  lemma AppendAssociates<T>(a: seq<T>, b: seq<T>, c: seq<T>)
    ensures a + (b + c) == a + b + c
  {
  }

  lemma JoinFourLines(a: string, b: string, c: string, d: string)
    ensures JoinLines([a, b, c, d]) == Line(a) + Line(b) + Line(c) + Line(d)
  {
    var l := [a, b, c, d];
    assert l[1..] == [b, c, d] && l[1..][1..] == [c, d] && l[1..][1..][1..] == [d];
    assert JoinLines([d]) == Line(d) by {
      assert JoinLines([d]) == Line(d) + JoinLines([]);
    }
    assert JoinLines([c, d]) == Line(c) + Line(d);
    assert JoinLines([b, c, d]) == Line(b) + (Line(c) + Line(d));
    AppendAssociates(Line(b), Line(c), Line(d));
    assert JoinLines(l) == Line(a) + ((Line(b) + Line(c)) + Line(d));
    AppendAssociates(Line(a), Line(b) + Line(c), Line(d));
    AppendAssociates(Line(a), Line(b), Line(c));
  }

  lemma {:induction false} SettingsTextIsLines(settings: seq<Setting>)
    ensures SettingsText(settings) == JoinLines(SettingsLines(settings))
    decreases |settings|
  {
    if |settings| > 0 {
      var init := settings[..|settings| - 1];
      var s := settings[|settings| - 1];
      SettingsTextIsLines(init);
      JoinLinesAppend(SettingsLines(init), SettingLines(s));
      JoinFourLines("; " + s.desc, "; " + s.opts, AssignmentLine(s), "");
    }
  }

  lemma HeadIsLines()
    ensures JoinLines([Title, "", "[frontend]"]) == Line(Title) + Line("") + Line("[frontend]")
  {
    var head: seq<string> := [Title, "", "[frontend]"];
    assert head[1..] == ["", "[frontend]"] && head[1..][1..] == ["[frontend]"];
    assert JoinLines(["[frontend]"]) == Line("[frontend]") + JoinLines([]);
    AppendAssociates(Line(Title), Line(""), Line("[frontend]"));
  }

  /** The text written is the layout's lines, each ended by a line feed. */
  lemma WriteIsLines(frontend: seq<Setting>, core: seq<Setting>)
    ensures Write(frontend, core) == JoinLines(WriteLines(frontend, core))
  {
    var head: seq<string> := [Title, "", "[frontend]"];
    var fe := SettingsLines(frontend);
    var mid: seq<string> := ["[nestopia]"];
    var co := SettingsLines(core);
    SettingsTextIsLines(frontend);
    SettingsTextIsLines(core);
    HeadIsLines();
    assert JoinLines(mid) == Line("[nestopia]") by {
      assert JoinLines(mid) == Line("[nestopia]") + JoinLines([]);
    }
    JoinLinesAppend(head + fe + mid, co);
    JoinLinesAppend(head + fe, mid);
    JoinLinesAppend(head, fe);
  }

  lemma {:induction false} SettingsLinesOneLine(settings: seq<Setting>)
    requires forall i :: 0 <= i < |settings| ==> OneLineFields(settings[i])
    ensures AllOneLine(SettingsLines(settings))
    decreases |settings|
  {
    if |settings| > 0 {
      var init := settings[..|settings| - 1];
      var s := settings[|settings| - 1];
      SettingsLinesOneLine(init);
      OneLineAppend("; ", s.desc);
      OneLineAppend("; ", s.opts);
      OneLineAppend(s.name, " = ");
      OneLineAppend(s.name + " = ", IntToString(s.val));
      assert AllOneLine(SettingLines(s));
      AllOneLineAppend(SettingsLines(init), SettingLines(s));
    }
  }

  lemma FixedLinesOneLine()
    ensures AllOneLine([Title, "", "[frontend]"])
    ensures AllOneLine(["[nestopia]"])
  {
  }

  /**
   Cutting the written text at its line feeds gives back the layout: the
   title, a blank line, `[frontend]`, four lines per frontend setting,
   `[nestopia]`, four lines per core setting.
   */
  lemma WriteSplitsIntoLayout(frontend: seq<Setting>, core: seq<Setting>)
    requires forall i :: 0 <= i < |frontend| ==> OneLineFields(frontend[i])
    requires forall i :: 0 <= i < |core| ==> OneLineFields(core[i])
    ensures SplitLines(Write(frontend, core)) == WriteLines(frontend, core)
  {
    var head: seq<string> := [Title, "", "[frontend]"];
    var fe := SettingsLines(frontend);
    var mid: seq<string> := ["[nestopia]"];
    var co := SettingsLines(core);
    WriteIsLines(frontend, core);
    SettingsLinesOneLine(frontend);
    SettingsLinesOneLine(core);
    FixedLinesOneLine();
    AllOneLineAppend(head, fe);
    AllOneLineAppend(head + fe, mid);
    AllOneLineAppend(head + fe + mid, co);
    SplitJoin(WriteLines(frontend, core));
  }

  /** Block `i` of a list occupies lines `4 * i` to `4 * i + 3` of its lines. */
  lemma {:induction false} SettingsLinesAt(settings: seq<Setting>, i: nat)
    requires i < |settings|
    ensures SettingsLines(settings)[4 * i..4 * i + 4] == SettingLines(settings[i])
    decreases |settings|
  {
    var init := settings[..|settings| - 1];
    var last := SettingLines(settings[|settings| - 1]);
    assert SettingsLines(settings) == SettingsLines(init) + last;
    if i < |settings| - 1 {
      SettingsLinesAt(init, i);
      assert settings[i] == init[i];
      SliceBefore(SettingsLines(init), last, 4 * i, 4 * i + 4);
    } else {
      SliceAfter(SettingsLines(init), last, 0, 4);
      assert last[0..4] == last;
    }
  }

  lemma SliceBefore<T>(a: seq<T>, b: seq<T>, lo: nat, hi: nat)
    requires lo <= hi <= |a|
    ensures (a + b)[lo..hi] == a[lo..hi]
  {
  }

  lemma FrontendBlockAt(frontend: seq<Setting>, core: seq<Setting>, i: nat)
    requires i < |frontend|
    ensures WriteLines(frontend, core)[3 + 4 * i..7 + 4 * i] == SettingLines(frontend[i])
  {
    var head: seq<string> := [Title, "", "[frontend]"];
    var fe := SettingsLines(frontend);
    var rest := ["[nestopia]"] + SettingsLines(core);
    assert WriteLines(frontend, core) == head + fe + rest;
    SettingsLinesAt(frontend, i);
    SliceOfMiddle(head, fe, rest, 4 * i, 4 * i + 4);
  }

  lemma SliceOfMiddle<T>(a: seq<T>, b: seq<T>, c: seq<T>, lo: nat, hi: nat)
    requires lo <= hi <= |b|
    ensures (a + b + c)[|a| + lo..|a| + hi] == b[lo..hi]
  {
  }

  lemma CoreBlockAt(frontend: seq<Setting>, core: seq<Setting>, j: nat)
    requires j < |core|
    ensures var n := 4 * |frontend|;
      WriteLines(frontend, core)[4 + n + 4 * j..8 + n + 4 * j] == SettingLines(core[j])
  {
    var front := [Title, "", "[frontend]"] + SettingsLines(frontend) + ["[nestopia]"];
    var co := SettingsLines(core);
    assert WriteLines(frontend, core) == front + co;
    SettingsLinesAt(core, j);
    SliceAfter(front, co, 4 * j, 4 * j + 4);
  }

  lemma SliceAfter<T>(a: seq<T>, b: seq<T>, lo: nat, hi: nat)
    requires lo <= hi <= |b|
    ensures (a + b)[|a| + lo..|a| + hi] == b[lo..hi]
  {
  }

  /**
   Where each setting lands: frontend setting `i` on lines `3 + 4 * i` to
   `6 + 4 * i` as description, options, assignment and blank line; the
   `[nestopia]` header after the last of them; core setting `j` four lines
   per setting after that header.
   */
  lemma WriteLayoutPositions(frontend: seq<Setting>, core: seq<Setting>)
    ensures var lines := WriteLines(frontend, core);
      && |lines| == 4 + 4 * (|frontend| + |core|)
      && lines[..3] == [Title, "", "[frontend]"]
      && lines[3 + 4 * |frontend|] == "[nestopia]"
      && (forall i :: 0 <= i < |frontend| ==>
            lines[3 + 4 * i..7 + 4 * i] == SettingLines(frontend[i]))
      && (forall j :: 0 <= j < |core| ==>
            lines[4 + 4 * |frontend| + 4 * j..8 + 4 * |frontend| + 4 * j] == SettingLines(core[j]))
  {
    var head: seq<string> := [Title, "", "[frontend]"];
    var fe := SettingsLines(frontend);
    var lines := WriteLines(frontend, core);
    assert lines == head + fe + ["[nestopia]"] + SettingsLines(core);
    assert lines[..3] == head;
    assert lines[3 + |fe|] == "[nestopia]";
    forall i | 0 <= i < |frontend|
      ensures lines[3 + 4 * i..7 + 4 * i] == SettingLines(frontend[i])
    {
      FrontendBlockAt(frontend, core, i);
    }
    forall j | 0 <= j < |core|
      ensures lines[4 + 4 * |frontend| + 4 * j..8 + 4 * |frontend| + 4 * j] == SettingLines(core[j])
    {
      CoreBlockAt(frontend, core, j);
    }
  }
}
