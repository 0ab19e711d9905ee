/**
 Character classes and small string utilities shared by the integer parser,
 the configuration writer and the line reader that is its partner.
 */
module Text {

  /** The characters C's `isspace` accepts in the "C" locale:
      space, tab, newline, vertical tab, form feed, carriage return. */
  predicate IsSpace(c: char) {
    c == ' ' || ('\t' <= c <= '\r')
  }

  predicate IsDigit(c: char) {
    '0' <= c <= '9'
  }

  predicate AllDigits(s: string) {
    forall i :: 0 <= i < |s| ==> IsDigit(s[i])
  }

  /** No line break inside `s`: it stays one line when written out. */
  predicate OneLine(s: string) {
    forall i :: 0 <= i < |s| ==> s[i] != '\n'
  }

  /** Every line of `lines` is one line. */
  predicate AllOneLine(lines: seq<string>) {
    forall i :: 0 <= i < |lines| ==> OneLine(lines[i])
  }

  lemma AllOneLineAppend(a: seq<string>, b: seq<string>)
    requires AllOneLine(a) && AllOneLine(b)
    ensures AllOneLine(a + b)
  {
    forall i | 0 <= i < |a + b| ensures OneLine((a + b)[i]) {
      if i >= |a| {
        assert (a + b)[i] == b[i - |a|];
      }
    }
  }

  /** Position of the first `c` in `s`, or `|s|` when there is none. */
  function FirstIndex(s: string, c: char): (r: nat)
    ensures r <= |s|
    ensures forall j :: 0 <= j < r ==> s[j] != c
    ensures r < |s| ==> s[r] == c
  {
    if |s| == 0 then 0
    else if s[0] == c then 0
    else 1 + FirstIndex(s[1..], c)
  }

  function TrimLeft(s: string): (r: string)
    ensures |r| <= |s| && r == s[|s| - |r|..]
    ensures |r| > 0 ==> !IsSpace(r[0])
  {
    if |s| > 0 && IsSpace(s[0]) then TrimLeft(s[1..]) else s
  }

  function TrimRight(s: string): (r: string)
    ensures |r| <= |s| && r == s[..|r|]
    ensures |r| > 0 ==> !IsSpace(r[|r| - 1])
  {
    if |s| > 0 && IsSpace(s[|s| - 1]) then TrimRight(s[..|s| - 1]) else s
  }

  /** Text that does not start with white space is left alone by `TrimLeft`. */
  lemma TrimLeftKeeps(s: string)
    requires |s| > 0 && !IsSpace(s[0])
    ensures TrimLeft(s) == s
  {
  }

  /** `s` without surrounding white space. */
  function Trim(s: string): string {
    TrimLeft(TrimRight(s))
  }

  /** `s` neither starts nor ends with white space, so trimming keeps it whole. */
  predicate Trimmed(s: string) {
    |s| > 0 ==> !IsSpace(s[0]) && !IsSpace(s[|s| - 1])
  }

  /** One space on either side of a trimmed string is removed by `Trim`. */
  lemma TrimPadded(s: string)
    requires Trimmed(s)
    ensures Trim(s + " ") == s
    ensures Trim(" " + s) == s
  {
    var padded := s + " ";
    assert padded[..|padded| - 1] == s;
    assert TrimRight(padded) == TrimRight(s) == s;
    assert (" " + s)[1..] == s;
  }

  /** `l` as one line of output: the text, then a line feed. */
  function Line(l: string): (text: string)
    ensures |text| == |l| + 1 && text[..|l|] == l && text[|l|] == '\n'
  {
    l + "\n"
  }

  /** Each line followed by a line feed, concatenated. */
  function JoinLines(lines: seq<string>): (text: string)
    ensures |lines| > 0 ==> |text| > 0 && text[|text| - 1] == '\n'
  {
    if |lines| == 0 then "" else Line(lines[0]) + JoinLines(lines[1..])
  }

  lemma OneLineAppend(a: string, b: string)
    requires OneLine(a) && OneLine(b)
    ensures OneLine(a + b)
  {
    assert forall i :: |a| <= i < |a + b| ==> (a + b)[i] == b[i - |a|];
  }

  /** The text cut at every line feed; a last line without a line feed is kept. */
  function SplitLines(text: string): seq<string>
    decreases |text|
  {
    if |text| == 0 then []
    else
      var k := FirstIndex(text, '\n');
      if k == |text| then [text] else [text[..k]] + SplitLines(text[k + 1..])
  }

  lemma {:induction false} JoinLinesAppend(a: seq<string>, b: seq<string>)
    ensures JoinLines(a + b) == JoinLines(a) + JoinLines(b)
    decreases |a|
  {
    if |a| == 0 {
      assert a + b == b;
    } else {
      assert (a + b)[1..] == a[1..] + b;
      JoinLinesAppend(a[1..], b);
    }
  }

  /** A first line without a line feed is split off whole. */
  lemma SplitLinesOfLine(l: string, rest: string)
    requires OneLine(l)
    ensures SplitLines(Line(l) + rest) == [l] + SplitLines(rest)
  {
    var text := Line(l) + rest;
    assert text[|l|] == '\n';
    assert forall j :: 0 <= j < |l| ==> text[j] == l[j];
    var k := FirstIndex(text, '\n');
    assert k == |l|;
    assert text[..k] == l;
    assert text[k + 1..] == rest;
  }

  /** Splitting undoes joining, as long as no line holds a line feed. */
  lemma {:induction false} SplitJoin(lines: seq<string>)
    requires AllOneLine(lines)
    ensures SplitLines(JoinLines(lines)) == lines
    decreases |lines|
  {
    if |lines| > 0 {
      var rest := lines[1..];
      assert JoinLines(lines) == Line(lines[0]) + JoinLines(rest);
      SplitLinesOfLine(lines[0], JoinLines(rest));
      SplitJoin(rest);
      assert [lines[0]] + rest == lines;
    }
  }
}
