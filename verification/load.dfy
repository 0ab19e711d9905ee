/**
 The pure part of `SettingManager::read`: each setting looks up its name in
 one section of the parsed configuration file and takes the number found
 there only when it lies within the setting's bounds.
 */
module Load {
  import opened Wrappers
  import opened IntText
  import opened IniData
  import opened Settings

  const FrontendSection: string := "frontend"
  const CoreSection: string := "nestopia"

  /** `std::stoi` threw while loading the setting at `index` of its list. */
  datatype Abort = Abort(index: nat, name: string, error: StoiError)

  /**
   The list after the loading loop ended, and the exception that ended it
   early, if any. Settings before the failing one have already been updated.
   */
  datatype Loaded = Loaded(settings: seq<Setting>, abort: Option<Abort>)

  /** One iteration of the loading loop, applied to setting `s`. */
  function LoadOne(entries: map<string, string>, s: Setting): (r: Result<Setting, StoiError>)
    ensures r.Success? ==> r.value == s.(val := r.value.val)
  {
    var text := Value(entries, s.name);
    if text == "" then Success(s)
    else
      match StoI(text)
      case Failure(e) => Failure(e)
      case Success(v) => if s.min <= v <= s.max then Success(s.(val := v)) else Success(s)
  }

  /**
   What one iteration does: an empty or missing value leaves the setting as
   it is; text `std::stoi` rejects throws; a number within the bounds becomes
   the new value and a number outside them is ignored.
   */
  lemma LoadOneCases(entries: map<string, string>, s: Setting)
    ensures var text := Value(entries, s.name);
      var r := LoadOne(entries, s);
      && (text == "" ==> r == Success(s))
      && (r.Failure? <==> text != "" && StoI(text).Failure?)
      && (r.Failure? ==> StoI(text) == Failure(r.error))
      && (text != "" && StoI(text).Success? && s.min <= StoI(text).value <= s.max ==>
            r == Success(s.(val := StoI(text).value)))
      && (text != "" && StoI(text).Success? && !(s.min <= StoI(text).value <= s.max) ==>
            r == Success(s))
  {
  }

  /** A value only ever changes to a number read from the text that lies within the bounds. */
  lemma LoadOneChangesOnlyToInRange(entries: map<string, string>, s: Setting)
    ensures var r := LoadOne(entries, s);
      r.Success? && r.value.val != s.val ==>
        StoI(Value(entries, s.name)) == Success(r.value.val) && InRange(r.value)
  {
  }

  /** The body of a loading loop, as a function of the setting it is applied to. */
  type Step = Setting -> Result<Setting, StoiError>

  /** The body of the loop over one section: `LoadOne` against that section's entries. */
  function LoadStep(entries: map<string, string>): Step {
    s => LoadOne(entries, s)
  }

  /**
   A loading loop: `step` applied to each setting in list order, until one
   application throws; that setting and every later one are left as they were.
   */
  function RunLoop(step: Step, settings: seq<Setting>): (r: Loaded)
    ensures |r.settings| == |settings|
    ensures r.abort.Some? ==> r.abort.value.index < |settings|
    decreases |settings|
  {
    if |settings| == 0 then Loaded([], None)
    else
      match step(settings[0])
      case Failure(e) => Loaded(settings, Some(Abort(0, settings[0].name, e)))
      case Success(s) =>
        var rest := RunLoop(step, settings[1..]);
        var abort := match rest.abort
          case None => None
          case Some(a) => Some(a.(index := a.index + 1));
        Loaded([s] + rest.settings, abort)
  }

  /** The first `k` settings of `settings` came through `step` as `loaded`. */
  predicate StepsUpTo(step: Step, settings: seq<Setting>, loaded: seq<Setting>, k: nat)
    requires k <= |settings| == |loaded|
  {
    forall i :: 0 <= i < k ==> step(settings[i]).Success? && loaded[i] == step(settings[i]).value
  }

  /** The settings of `settings` from position `k` on are still as they were. */
  predicate UntouchedFrom(settings: seq<Setting>, loaded: seq<Setting>, k: nat)
    requires k <= |settings| == |loaded|
  {
    forall i :: k <= i < |settings| ==> loaded[i] == settings[i]
  }

  /** A loop that runs to the end has applied `step` to every setting. */
  lemma {:induction false} RunCompleted(step: Step, settings: seq<Setting>)
    ensures var r := RunLoop(step, settings);
      r.abort.None? ==> StepsUpTo(step, settings, r.settings, |settings|)
    decreases |settings|
  {
    var r := RunLoop(step, settings);
    if |settings| > 0 && r.abort.None? {
      var one := step(settings[0]);
      var tail := settings[1..];
      var rest := RunLoop(step, tail);
      assert one.Success? && r.settings == [one.value] + rest.settings;
      RunCompleted(step, tail);
      forall i | 0 <= i < |settings|
        ensures step(settings[i]).Success? && r.settings[i] == step(settings[i]).value
      {
        if i > 0 {
          assert settings[i] == tail[i - 1];
          assert r.settings[i] == rest.settings[i - 1];
        }
      }
    }
  }

  /**
   A loop that throws stops at the first setting `step` rejects: the settings
   before it went through `step`, and it and every later one are untouched.
   */
  lemma {:induction false} RunAborted(step: Step, settings: seq<Setting>)
    ensures var r := RunLoop(step, settings);
      r.abort.Some? ==>
        var k := r.abort.value.index;
        && k < |settings|
        && r.abort.value.name == settings[k].name
        && step(settings[k]) == Failure(r.abort.value.error)
        && StepsUpTo(step, settings, r.settings, k)
        && UntouchedFrom(settings, r.settings, k)
    decreases |settings|
  {
    var r := RunLoop(step, settings);
    if |settings| > 0 && r.abort.Some? {
      var one := step(settings[0]);
      if one.Success? {
        var tail := settings[1..];
        var rest := RunLoop(step, tail);
        assert r.settings == [one.value] + rest.settings;
        RunAborted(step, tail);
        var n := rest.abort.value.index;
        assert r.abort.value == rest.abort.value.(index := n + 1);
        assert settings[n + 1] == tail[n];
        forall i | 0 <= i < |settings|
          ensures i <= n ==> step(settings[i]).Success? && r.settings[i] == step(settings[i]).value
          ensures n + 1 <= i ==> r.settings[i] == settings[i]
        {
          if i > 0 {
            assert settings[i] == tail[i - 1];
            assert r.settings[i] == rest.settings[i - 1];
          }
        }
      }
    }
  }

  /** The loading loop over one list and one section, in list order, until `std::stoi` throws. */
  function LoadSection(entries: map<string, string>, settings: seq<Setting>): (r: Loaded)
    ensures |r.settings| == |settings|
    ensures r.abort.Some? ==> r.abort.value.index < |settings|
  {
    RunLoop(LoadStep(entries), settings)
  }

  /** The first `k` settings of `settings` came through one iteration each as `loaded`. */
  predicate LoadedUpTo(entries: map<string, string>, settings: seq<Setting>, loaded: seq<Setting>, k: nat)
    requires k <= |settings| == |loaded|
  {
    forall i :: 0 <= i < k ==>
      LoadOne(entries, settings[i]).Success? && loaded[i] == LoadOne(entries, settings[i]).value
  }

  lemma StepsAreLoads(entries: map<string, string>, settings: seq<Setting>, loaded: seq<Setting>, k: nat)
    requires k <= |settings| == |loaded|
    requires StepsUpTo(LoadStep(entries), settings, loaded, k)
    ensures LoadedUpTo(entries, settings, loaded, k)
  {
    forall i | 0 <= i < k
      ensures LoadOne(entries, settings[i]).Success? && loaded[i] == LoadOne(entries, settings[i]).value
    {
      assert LoadStep(entries)(settings[i]) == LoadOne(entries, settings[i]);
    }
  }

  /** When no exception is thrown, each entry is what one iteration makes of it. */
  lemma LoadSectionCompleted(entries: map<string, string>, settings: seq<Setting>)
    ensures var r := LoadSection(entries, settings);
      r.abort.None? ==> LoadedUpTo(entries, settings, r.settings, |settings|)
  {
    var r := LoadSection(entries, settings);
    RunCompleted(LoadStep(entries), settings);
    if r.abort.None? {
      StepsAreLoads(entries, settings, r.settings, |settings|);
    }
  }

  /**
   When an exception is thrown, it names the first setting whose text
   `std::stoi` rejects; the settings before it are loaded, and it and those
   after it are untouched.
   */
  lemma LoadSectionAborted(entries: map<string, string>, settings: seq<Setting>)
    ensures var r := LoadSection(entries, settings);
      r.abort.Some? ==>
        var k := r.abort.value.index;
        && k < |settings|
        && r.abort.value.name == settings[k].name
        && LoadOne(entries, settings[k]) == Failure(r.abort.value.error)
        && LoadedUpTo(entries, settings, r.settings, k)
        && UntouchedFrom(settings, r.settings, k)
  {
    var r := LoadSection(entries, settings);
    RunAborted(LoadStep(entries), settings);
    if r.abort.Some? {
      var k := r.abort.value.index;
      assert LoadStep(entries)(settings[k]) == LoadOne(entries, settings[k]);
      StepsAreLoads(entries, settings, r.settings, k);
    }
  }

  /** The loop changes nothing but values: length, order and every other field stay. */
  lemma LoadSectionShape(entries: map<string, string>, settings: seq<Setting>)
    ensures SameShape(LoadSection(entries, settings).settings, settings)
  {
    var r := LoadSection(entries, settings);
    LoadSectionCompleted(entries, settings);
    LoadSectionAborted(entries, settings);
    forall i | 0 <= i < |settings|
      ensures r.settings[i].(val := settings[i].val) == settings[i]
    {
      if r.abort.None? || i < r.abort.value.index {
        var one := LoadOne(entries, settings[i]);
        assert r.settings[i] == one.value == settings[i].(val := one.value.val);
      }
    }
  }

  /** The loop finishes without an exception exactly when `std::stoi` accepts every non-empty value. */
  lemma LoadSectionCompletes(entries: map<string, string>, settings: seq<Setting>)
    ensures LoadSection(entries, settings).abort.None? <==>
      forall i :: 0 <= i < |settings| ==> LoadOne(entries, settings[i]).Success?
  {
    LoadSectionCompleted(entries, settings);
    LoadSectionAborted(entries, settings);
  }

  /**
   A setting whose key is missing or empty keeps its value, and a list whose
   values are all within bounds stays so, whether or not the loop completed.
   */
  lemma LoadSectionKeeps(entries: map<string, string>, settings: seq<Setting>)
    ensures var r := LoadSection(entries, settings);
      && (forall i :: 0 <= i < |settings| && Value(entries, settings[i].name) == "" ==>
            r.settings[i] == settings[i])
      && (AllInRange(settings) ==> AllInRange(r.settings))
  {
    var r := LoadSection(entries, settings);
    LoadSectionCompleted(entries, settings);
    LoadSectionAborted(entries, settings);
    forall i | 0 <= i < |settings|
      ensures Value(entries, settings[i].name) == "" ==> r.settings[i] == settings[i]
      ensures InRange(settings[i]) ==> InRange(r.settings[i])
    {
      var one := LoadOne(entries, settings[i]);
      LoadOneCases(entries, settings[i]);
      LoadOneChangesOnlyToInRange(entries, settings[i]);
      if r.abort.None? || i < r.abort.value.index {
        assert one.Success? && r.settings[i] == one.value;
      }
    }
  }

  lemma LoadSectionChangesOnlyToInRange(entries: map<string, string>, settings: seq<Setting>)
    ensures var r := LoadSection(entries, settings);
      forall i :: 0 <= i < |settings| && r.settings[i].val != settings[i].val ==>
        StoI(Value(entries, settings[i].name)) == Success(r.settings[i].val) && InRange(r.settings[i])
  {
    var r := LoadSection(entries, settings);
    LoadSectionCompleted(entries, settings);
    LoadSectionAborted(entries, settings);
    forall i | 0 <= i < |settings| && r.settings[i].val != settings[i].val
      ensures StoI(Value(entries, settings[i].name)) == Success(r.settings[i].val)
      ensures InRange(r.settings[i])
    {
      LoadOneChangesOnlyToInRange(entries, settings[i]);
    }
  }

  /** The exception that ended `read`, with the section being loaded. */
  datatype SectionAbort = SectionAbort(section: string, at: Abort)

  /** Both lists after `read`, and the exception that ended it early, if any. */
  datatype ReadResult = ReadResult(
    frontend: seq<Setting>,
    core: seq<Setting>,
    abort: Option<SectionAbort>)

  /**
   `read` on an already parsed file: the frontend list against `[frontend]`,
   then, unless that threw, the emulator core's list against `[nestopia]`.
   */
  function Read(ini: Ini, frontend: seq<Setting>, core: seq<Setting>): (r: ReadResult)
    ensures SameShape(r.frontend, frontend) && SameShape(r.core, core)
    ensures r.abort.Some? ==> r.abort.value.section in {FrontendSection, CoreSection}
    ensures r.abort.Some? && r.abort.value.section == FrontendSection ==> r.core == core
  {
    LoadSectionShape(Section(ini, FrontendSection), frontend);
    LoadSectionShape(Section(ini, CoreSection), core);
    var fe := LoadSection(Section(ini, FrontendSection), frontend);
    match fe.abort
    case Some(a) => ReadResult(fe.settings, core, Some(SectionAbort(FrontendSection, a)))
    case None =>
      var co := LoadSection(Section(ini, CoreSection), core);
      var abort := match co.abort
        case None => None
        case Some(a) => Some(SectionAbort(CoreSection, a));
      ReadResult(fe.settings, co.settings, abort)
  }

  /** After `read`, every value is still within its bounds if it was before. */
  lemma ReadKeepsInRange(ini: Ini, frontend: seq<Setting>, core: seq<Setting>)
    requires AllInRange(frontend) && AllInRange(core)
    ensures AllInRange(Read(ini, frontend, core).frontend)
    ensures AllInRange(Read(ini, frontend, core).core)
  {
    LoadSectionKeeps(Section(ini, FrontendSection), frontend);
    LoadSectionKeeps(Section(ini, CoreSection), core);
  }

  /** A setting whose key is missing or empty in its own section keeps its value. */
  lemma ReadKeepsUnlisted(ini: Ini, frontend: seq<Setting>, core: seq<Setting>)
    ensures var r := Read(ini, frontend, core);
      && (forall i :: 0 <= i < |frontend| && Entry(ini, FrontendSection, frontend[i].name) == "" ==>
            r.frontend[i] == frontend[i])
      && (forall i :: 0 <= i < |core| && Entry(ini, CoreSection, core[i].name) == "" ==>
            r.core[i] == core[i])
  {
    LoadSectionKeeps(Section(ini, FrontendSection), frontend);
    LoadSectionKeeps(Section(ini, CoreSection), core);
  }

  /** A value changes only to the number `std::stoi` reads from its own section, within the bounds. */
  lemma ReadChangesOnlyToInRange(ini: Ini, frontend: seq<Setting>, core: seq<Setting>)
    ensures var r := Read(ini, frontend, core);
      && (forall i :: 0 <= i < |frontend| && r.frontend[i].val != frontend[i].val ==>
            StoI(Entry(ini, FrontendSection, frontend[i].name)) == Success(r.frontend[i].val)
            && InRange(r.frontend[i]))
      && (forall i :: 0 <= i < |core| && r.core[i].val != core[i].val ==>
            StoI(Entry(ini, CoreSection, core[i].name)) == Success(r.core[i].val)
            && InRange(r.core[i]))
  {
    var r := Read(ini, frontend, core);
    var fe := Section(ini, FrontendSection);
    var co := Section(ini, CoreSection);
    assert r.frontend == LoadSection(fe, frontend).settings;
    assert r.core == core || r.core == LoadSection(co, core).settings;
    LoadSectionChangesOnlyToInRange(fe, frontend);
    LoadSectionChangesOnlyToInRange(co, core);
    forall i | 0 <= i < |frontend|
      ensures Entry(ini, FrontendSection, frontend[i].name) == Value(fe, frontend[i].name)
    {
    }
    forall i | 0 <= i < |core|
      ensures Entry(ini, CoreSection, core[i].name) == Value(co, core[i].name)
    {
    }
  }

  /**
   Frontend settings see only `[frontend]` and core settings only `[nestopia]`:
   files that agree on those two sections load identically.
   */
  lemma ReadSeesOnlyItsSections(ini1: Ini, ini2: Ini, frontend: seq<Setting>, core: seq<Setting>)
    requires Section(ini1, FrontendSection) == Section(ini2, FrontendSection)
    requires Section(ini1, CoreSection) == Section(ini2, CoreSection)
    ensures Read(ini1, frontend, core) == Read(ini2, frontend, core)
  {
  }

  /** Loading a file without the two sections changes nothing. */
  lemma ReadOfEmptyFile(frontend: seq<Setting>, core: seq<Setting>)
    ensures Read(map[], frontend, core) == ReadResult(frontend, core, None)
  {
    LoadSectionKeeps(map[], frontend);
    LoadSectionKeeps(map[], core);
    LoadSectionCompleted(map[], frontend);
    LoadSectionAborted(map[], frontend);
    LoadSectionCompleted(map[], core);
    LoadSectionAborted(map[], core);
    forall i | 0 <= i < |frontend| ensures LoadOne(map[], frontend[i]).Success? {
      LoadOneCases(map[], frontend[i]);
    }
    forall i | 0 <= i < |core| ensures LoadOne(map[], core[i]).Success? {
      LoadOneCases(map[], core[i]);
    }
  }
}
