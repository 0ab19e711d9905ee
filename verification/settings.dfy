/**
 The frontend's integer settings: the record every setting shares with the
 emulator core's settings, and the fixed table of frontend defaults.
 */
module Settings {
  import opened IntText

  /** Setting flags. Their numeric values live in headers outside this model. */
  datatype Flag = FrontendFlag | RestartFlag

  /**
   One integer setting: its key in the configuration file (`name`), a title
   (`fname`), the one-line list of accepted values (`opts`), a description
   (`desc`), the current value and its inclusive bounds, and its flags.
   */
  datatype Setting = Setting(
    name: string,
    fname: string,
    opts: string,
    desc: string,
    val: Int32,
    min: Int32,
    max: Int32,
    flags: set<Flag>)

  predicate InRange(s: Setting) {
    s.min <= s.val <= s.max
  }

  predicate AllInRange(settings: seq<Setting>) {
    forall i :: 0 <= i < |settings| ==> InRange(settings[i])
  }

  /** `a` and `b` are the same list of settings, up to their current values. */
  predicate SameShape(a: seq<Setting>, b: seq<Setting>) {
    |a| == |b| && forall i :: 0 <= i < |a| ==> a[i].(val := b[i].val) == b[i]
  }

  predicate DistinctNames(settings: seq<Setting>) {
    forall i, j :: 0 <= i < j < |settings| ==> settings[i].name != settings[j].name
  }

  function Names(settings: seq<Setting>): (names: seq<string>)
    ensures |names| == |settings|
    ensures forall i :: 0 <= i < |settings| ==> names[i] == settings[i].name
  {
    if |settings| == 0 then [] else [settings[0].name] + Names(settings[1..])
  }

  /**
   The defaults the frontend starts from, in the order they are written to
   and read from the `[frontend]` section.
   */
  function FrontendTable(): (table: seq<Setting>)
    ensures |table| == 7
    ensures AllInRange(table)
    ensures forall i :: 0 <= i < |table| ==> FrontendFlag in table[i].flags
    ensures Names(table) == FrontendNames
  {
    [VScale, VLinearFilter, VAspect, ARsQual, MFfSpeed, MHideCursor, MHideCrosshair]
  }

  const VScale: Setting :=
    Setting("v_scale", "Initial Window Scale",
      "N = Window scale factor at startup",
      "Set the window's initial scale factor (multiple of NES resolution)",
      2, 1, 16, {FrontendFlag, RestartFlag})

  const VLinearFilter: Setting :=
    Setting("v_linearfilter", "Linear Filter",
      "0 = Disable, 1 = Enable",
      "Use the GPU's built-in linear filter for video output",
      1, 0, 1, {FrontendFlag})

  const VAspect: Setting :=
    Setting("v_aspect", "Aspect Ratio",
      "0 = TV Correct, 1 = 1:1, 2 = 4:3",
      "Set the aspect ratio to the correct TV aspect, 1:1 (square pixels), or 4:3",
      0, 0, 2, {FrontendFlag})

  const ARsQual: Setting :=
    Setting("a_rsqual", "Audio Resampler Quality",
      "0 = Sinc (Best), 1 = Sinc (Medium), 2 = Sinc (Fast), 3 = Zero Order Hold, 4 = Linear",
      "Set the frontend's audio resampling quality. Use Sinc unless you are on extremely weak hardware.",
      2, 0, 4, {FrontendFlag})

  const MFfSpeed: Setting :=
    Setting("m_ffspeed", "Fast-forward Speed",
      "N = Fast-forward speed multiplier",
      "Set the speed multiplier to run emulation faster",
      2, 2, 8, {FrontendFlag})

  const MHideCursor: Setting :=
    Setting("m_hidecursor", "Hide Cursor",
      "0 = Disabled, 1 = Enabled",
      "Hide the cursor when hovering over the UI",
      0, 0, 1, {FrontendFlag})

  const MHideCrosshair: Setting :=
    Setting("m_hidecrosshair", "Hide Crosshair",
      "0 = Disabled, 1 = Enabled",
      "Hide the crosshair when a Zapper is present",
      0, 0, 1, {FrontendFlag})

  /** The keys of the `[frontend]` section, in table order. */
  const FrontendNames: seq<string> :=
    ["v_scale", "v_linearfilter", "v_aspect", "a_rsqual", "m_ffspeed", "m_hidecursor", "m_hidecrosshair"]

  /** No key of the `[frontend]` section is listed twice. */
  lemma FrontendNameListDistinct()
    ensures forall i, j :: 0 <= i < j < |FrontendNames| ==> FrontendNames[i] != FrontendNames[j]
  {
    var names := FrontendNames;
    // The names differ in length, except v_aspect and a_rsqual, which differ in their first letter.
    var lengths := [7, 14, 8, 8, 9, 12, 15];
    forall i | 0 <= i < 7
      ensures |names[i]| == lengths[i]
    {
    }
    assert names[2][0] != names[3][0];
  }

  /** The table's names are pairwise different, so a name picks out one entry. */
  lemma FrontendNamesDistinct()
    ensures DistinctNames(FrontendTable())
  {
    var t := FrontendTable();
    FrontendNameListDistinct();
    assert forall i :: 0 <= i < |t| ==> t[i].name == Names(t)[i];
  }

  /**
   The record `get_setting` answers with when no name matches: a
   zero-initialised static, whose null string pointers are modelled as "".
   */
  const NullSetting: Setting := Setting("", "", "", "", 0, 0, 0, {})
}
