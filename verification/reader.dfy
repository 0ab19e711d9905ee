/**
 A reader for the INI layout the configuration writer produces: `;` comment
 lines and blank lines are skipped, `[name]` opens a section, and
 `key = value` stores the trimmed value under the trimmed key in the open
 section. It is the counterpart the writer is checked against; the INI
 library the program links is not part of this model.
 */
module IniReader {
  import opened Text
  import opened IniData

  datatype ReaderState = ReaderState(section: string, ini: Ini)

  function ReadLine(st: ReaderState, line: string): ReaderState {
    if |line| == 0 || line[0] == ';' then st
    else if |line| >= 2 && line[0] == '[' && line[|line| - 1] == ']' then
      var name := line[1..|line| - 1];
      ReaderState(name, st.ini[name := Section(st.ini, name)])
    else
      var k := FirstIndex(line, '=');
      if k == |line| then st
      else
        var entries := Section(st.ini, st.section)[Trim(line[..k]) := Trim(line[k + 1..])];
        ReaderState(st.section, st.ini[st.section := entries])
  }

  function ReadLines(st: ReaderState, lines: seq<string>): ReaderState
    decreases |lines|
  {
    if |lines| == 0 then st else ReadLines(ReadLine(st, lines[0]), lines[1..])
  }

  /** The sections and entries of a whole text; entries before any section header go to "". */
  function Parse(text: string): Ini {
    ReadLines(ReaderState("", map[]), SplitLines(text)).ini
  }

  lemma {:induction false} ReadLinesAppend(st: ReaderState, a: seq<string>, b: seq<string>)
    ensures ReadLines(st, a + b) == ReadLines(ReadLines(st, a), b)
    decreases |a|
  {
    if |a| == 0 {
      assert a + b == b;
    } else {
      assert (a + b)[1..] == a[1..] + b;
      ReadLinesAppend(ReadLine(st, a[0]), a[1..], b);
    }
  }

  /** A key with a trimmed name, no `=` and no line break, written as `key = value`. */
  predicate PlainKey(key: string) {
    && |key| > 0
    && Trimmed(key)
    && key[0] != ';' && key[0] != '['
    && OneLine(key)
    && forall i :: 0 <= i < |key| ==> key[i] != '='
  }

  /** The first `=` of `key = value` is the one after the key. */
  lemma SplitAssignment(key: string, value: string)
    requires PlainKey(key)
    ensures var line := key + " = " + value;
      && |line| > 0 && line[0] == key[0]
      && FirstIndex(line, '=') == |key| + 1
      && line[..|key| + 1] == key + " "
      && line[|key| + 2..] == " " + value
  {
    var line := key + " = " + value;
    assert line[|key| + 1] == '=';
    assert forall j :: 0 <= j < |key| ==> line[j] == key[j];
    assert line[|key|] == ' ';
  }

  /** A `key = value` line stores `value` under `key` in the open section. */
  lemma ReadAssignment(st: ReaderState, key: string, value: string)
    requires PlainKey(key) && Trimmed(value)
    ensures ReadLine(st, key + " = " + value)
         == ReaderState(st.section, st.ini[st.section := Section(st.ini, st.section)[key := value]])
  {
    var line := key + " = " + value;
    SplitAssignment(key, value);
    TrimPadded(key);
    TrimPadded(value);
    assert Trim(line[..|key| + 1]) == key;
    assert Trim(line[|key| + 2..]) == value;
  }

  /** A line that starts with `;` is a comment and changes nothing. */
  lemma ReadComment(st: ReaderState, text: string)
    ensures ReadLine(st, "; " + text) == st
  {
  }
}
