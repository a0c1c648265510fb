/**
 * The data operations of monitor_control/config.py, without YAML: the
 * profile records, their ordering, the colour-mode name tables and the
 * in-memory updates of `Config` and `MonitorConfig`.
 *
 * A parsed YAML mapping is given as a typed record (`ProfileData`), an
 * absent key as `None`.  Name to value tables whose order matters are
 * association lists (module Assoc); `profile_color_modes` and
 * `profile_color_presets`, whose order does not, are maps.  Writing the
 * file is an oracle: its outcome is the `saveOk` argument.
 */
module Config {
  import opened Wrappers
  import Text
  import Assoc

  /** `ProfileSettings`. */
  datatype ProfileSettings = ProfileSettings(
    colorPreset: Option<int>,
    brightness: Option<int>,
    contrast: Option<int>,
    redGain: Option<int>,
    greenGain: Option<int>,
    blueGain: Option<int>)

  /** `ProfileMatch`: window-class and window-title patterns. */
  datatype ProfileMatch = ProfileMatch(windowClass: seq<string>, windowTitle: seq<string>)

  /** `Profile`; `None` auto flags inherit the monitor's setting. */
  datatype Profile = Profile(
    name: string,
    priority: int,
    rules: ProfileMatch,
    settings: ProfileSettings,
    requireFullscreen: bool,
    autoBrightness: Option<bool>,
    autoContrast: Option<bool>)

  const SettingNames: seq<string> := ["color_preset", "brightness", "contrast", "red_gain", "green_gain", "blue_gain"]

  /** The settings as (key, value) pairs in the order `to_dict` lists them. */
  function SettingFields(s: ProfileSettings): seq<(string, Option<int>)> {
    [("color_preset", s.colorPreset), ("brightness", s.brightness), ("contrast", s.contrast),
     ("red_gain", s.redGain), ("green_gain", s.greenGain), ("blue_gain", s.blueGain)]
  }

  /** The pairs whose value is present. */
  function Present(fields: seq<(string, Option<int>)>): seq<(string, int)> {
    if fields == [] then []
    else match fields[0].1
      case None => Present(fields[1..])
      case Some(v) => [(fields[0].0, v)] + Present(fields[1..])
  }

  function Flatten(o: Option<Option<int>>): Option<int> {
    match o
    case None => None
    case Some(x) => x
  }

  /** With distinct keys, a key is kept exactly when its value is present, with that value. */
  lemma {:induction false} PresentGet(fields: seq<(string, Option<int>)>, k: string)
    requires Assoc.UniqueKeys(fields)
    ensures Assoc.Get(Present(fields), k) == Flatten(Assoc.Get(fields, k))
  {
    if fields != [] {
      Assoc.SplitHead(fields);
      PresentGet(fields[1..], k);
    }
  }

  lemma {:induction false} PresentUnique(fields: seq<(string, Option<int>)>)
    requires Assoc.UniqueKeys(fields)
    ensures Assoc.UniqueKeys(Present(fields))
  {
    if fields != [] {
      Assoc.SplitHead(fields);
      PresentUnique(fields[1..]);
      if fields[0].1.Some? {
        var rest := Present(fields[1..]);
        PresentGet(fields[1..], fields[0].0);
        assert Assoc.Keys([(fields[0].0, fields[0].1.value)] + rest) == [fields[0].0] + Assoc.Keys(rest) by {
          Assoc.SplitHead([(fields[0].0, fields[0].1.value)] + rest);
          assert ([(fields[0].0, fields[0].1.value)] + rest)[1..] == rest;
        }
      }
    }
  }

  /**
   * `ProfileSettings.to_dict`: each setting appears under its own name
   * exactly when it is set, with its value, and no other key appears.
   */
  function ToDict(s: ProfileSettings): (d: seq<(string, int)>)
    ensures Assoc.UniqueKeys(d)
    ensures forall i :: 0 <= i < 6 ==> Assoc.Get(d, SettingNames[i]) == SettingFields(s)[i].1
    ensures forall k :: k !in SettingNames ==> !Assoc.HasKey(d, k)
  {
    var fields := SettingFields(s);
    assert Assoc.Keys(fields) == SettingNames;
    PresentTable(fields);
    Present(fields)
  }

  /** Keeping the present pairs of a table keyed by the six setting names. */
  lemma PresentTable(fields: seq<(string, Option<int>)>)
    requires Assoc.Keys(fields) == SettingNames
    ensures Assoc.UniqueKeys(Present(fields))
    ensures forall i :: 0 <= i < 6 ==> Assoc.Get(Present(fields), SettingNames[i]) == fields[i].1
    ensures forall k :: k !in SettingNames ==> !Assoc.HasKey(Present(fields), k)
  {
    assert Assoc.UniqueKeys(fields);
    PresentUnique(fields);
    forall i | 0 <= i < 6 ensures Assoc.Get(Present(fields), SettingNames[i]) == fields[i].1 {
      PresentTableGet(fields, i);
    }
    forall k | k !in SettingNames ensures !Assoc.HasKey(Present(fields), k) {
      PresentGet(fields, k);
      assert !Assoc.HasKey(fields, k);
    }
  }

  /** The `i`-th setting name finds the `i`-th field's value among the present pairs. */
  lemma PresentTableGet(fields: seq<(string, Option<int>)>, i: nat)
    requires Assoc.Keys(fields) == SettingNames && i < 6
    ensures Assoc.Get(Present(fields), SettingNames[i]) == fields[i].1
  {
    assert Assoc.UniqueKeys(fields);
    assert fields[i].0 == SettingNames[i];
    PresentGet(fields, fields[i].0);
    Assoc.GetIffEntry(fields, fields[i].0, fields[i].1);
  }

  /** The brightness and contrast a profile sets are the ones its dictionary carries. */
  lemma ToDictNamesSettings(s: ProfileSettings)
    ensures Assoc.Get(ToDict(s), "color_preset") == s.colorPreset
    ensures Assoc.Get(ToDict(s), "brightness") == s.brightness
    ensures Assoc.Get(ToDict(s), "contrast") == s.contrast
    ensures Assoc.Get(ToDict(s), "red_gain") == s.redGain
    ensures Assoc.Get(ToDict(s), "green_gain") == s.greenGain
    ensures Assoc.Get(ToDict(s), "blue_gain") == s.blueGain
  {
    assert SettingNames[0] == "color_preset" && SettingNames[1] == "brightness" && SettingNames[2] == "contrast";
    assert SettingNames[3] == "red_gain" && SettingNames[4] == "green_gain" && SettingNames[5] == "blue_gain";
  }

  /** A `color_preset` as written in the file: a number or a colour-mode name. */
  datatype PresetValue = PresetNumber(number: int) | PresetName(modeName: string)

  /** A profile mapping of the configuration file; absent keys are `None`. */
  datatype ProfileData = ProfileData(
    name: Option<string>,
    priority: Option<int>,
    windowClass: Option<seq<string>>,
    windowTitle: Option<seq<string>>,
    colorPreset: Option<PresetValue>,
    brightness: Option<int>,
    contrast: Option<int>,
    redGain: Option<int>,
    greenGain: Option<int>,
    blueGain: Option<int>,
    requireFullscreen: Option<bool>,
    autoBrightness: Option<bool>,
    autoContrast: Option<bool>)

  /** The colour preset of a profile: a name is looked up in `color_modes`, an unknown one is 0. */
  function ResolvePreset(p: Option<PresetValue>, colorModes: seq<(string, int)>): (r: Option<int>)
    ensures p.None? ==> r.None?
    ensures p.Some? && p.value.PresetNumber? ==> r == Some(p.value.number)
    ensures p.Some? && p.value.PresetName? && Assoc.HasKey(colorModes, p.value.modeName) ==>
              r == Assoc.Get(colorModes, p.value.modeName)
    ensures p.Some? && p.value.PresetName? && !Assoc.HasKey(colorModes, p.value.modeName) ==> r == Some(0)
  {
    match p
    case None => None
    case Some(PresetNumber(n)) => Some(n)
    case Some(PresetName(n)) => Some(Assoc.Get(colorModes, n).GetOr(0))
  }

  /**
   * A preset given by name reads back as that name: with distinct mode
   * values, the name `get_color_mode_name` gives the resolved value is the
   * name written in the file. An unknown name resolves to 0.
   */
  lemma ResolvedNameReadsBack(name: string, colorModes: seq<(string, int)>)
    ensures Assoc.HasKey(colorModes, name) && DistinctValues(colorModes) ==>
              ModeName(colorModes, ResolvePreset(Some(PresetName(name)), colorModes).value) == name
    ensures !Assoc.HasKey(colorModes, name) ==> ResolvePreset(Some(PresetName(name)), colorModes) == Some(0)
  {
    if Assoc.HasKey(colorModes, name) && DistinctValues(colorModes) {
      ValueLeadsBackToName(colorModes, name);
    }
  }

  /**
   * `Profile.from_dict`, with the source's defaults for absent keys:
   * `unnamed`, priority 0, no patterns, not fullscreen-only, and inherited
   * auto flags.
   */
  function FromDict(data: ProfileData, colorModes: seq<(string, int)>): (p: Profile)
    ensures data.name.None? ==> p.name == "unnamed"
    ensures data.priority.None? ==> p.priority == 0
    ensures data.windowClass.None? ==> p.rules.windowClass == []
    ensures data.windowTitle.None? ==> p.rules.windowTitle == []
    ensures data.requireFullscreen.None? ==> !p.requireFullscreen
    ensures data.autoBrightness.None? ==> p.autoBrightness.None?
    ensures data.autoContrast.None? ==> p.autoContrast.None?
  {
    var settings := ProfileSettings(ResolvePreset(data.colorPreset, colorModes), data.brightness, data.contrast,
                                    data.redGain, data.greenGain, data.blueGain);
    Profile(
      data.name.GetOr("unnamed"),
      data.priority.GetOr(0),
      ProfileMatch(data.windowClass.GetOr([]), data.windowTitle.GetOr([])),
      settings,
      data.requireFullscreen.GetOr(false),
      data.autoBrightness,
      data.autoContrast)
  }

  /**
   * The settings `from_dict` reads are the ones `to_dict` writes back, the
   * colour preset resolved through the colour-mode names.
   */
  lemma FromDictToDict(data: ProfileData, colorModes: seq<(string, int)>)
    ensures var d := ToDict(FromDict(data, colorModes).settings);
            && Assoc.Get(d, "color_preset") == ResolvePreset(data.colorPreset, colorModes)
            && Assoc.Get(d, "brightness") == data.brightness && Assoc.Get(d, "contrast") == data.contrast
            && Assoc.Get(d, "red_gain") == data.redGain && Assoc.Get(d, "green_gain") == data.greenGain
            && Assoc.Get(d, "blue_gain") == data.blueGain
  {
    ToDictNamesSettings(FromDict(data, colorModes).settings);
  }

  /** `Config.default_profile` before any file is read. */
  const DefaultProfile: Profile :=
    Profile("default", -1, ProfileMatch([], []), ProfileSettings(None, Some(40), Some(50), None, None, None),
            false, None, None)

  /**
   * The default profile of `_parse_config`: a non-empty `default_profile`
   * mapping is read with priority -1 and no match rules whatever it says.
   */
  function ParseDefault(data: Option<ProfileData>, colorModes: seq<(string, int)>): (p: Profile)
    ensures p.priority == -1 && p.rules == ProfileMatch([], [])
    ensures data.None? ==> p == DefaultProfile
    ensures data.Some? ==> p.name == data.value.name.GetOr("unnamed")
                           && p.settings.colorPreset == ResolvePreset(data.value.colorPreset, colorModes)
  {
    match data
    case None => DefaultProfile
    case Some(d) => FromDict(d.(priority := Some(-1), windowClass := None, windowTitle := None), colorModes)
  }

  // Ordering of the profiles: `profiles.sort(key=lambda p: -p.priority)`.

  predicate SortedByPriority(s: seq<Profile>) {
    forall i, j :: 0 <= i < j < |s| ==> s[i].priority >= s[j].priority
  }

  /** The profiles of priority `q`, in order. */
  function WithPriority(s: seq<Profile>, q: int): seq<Profile> {
    if s == [] then []
    else WithPriority(s[..|s| - 1], q) + (if s[|s| - 1].priority == q then [s[|s| - 1]] else [])
  }

  /** `p` placed after every profile of at least its priority. */
  function Insert(s: seq<Profile>, p: Profile): seq<Profile> {
    if s == [] || s[|s| - 1].priority >= p.priority then s + [p]
    else Insert(s[..|s| - 1], p) + [s[|s| - 1]]
  }

  /** Python's stable sort, by descending priority: the same profiles, each as often as before. */
  function SortByPriority(s: seq<Profile>): (r: seq<Profile>)
    ensures multiset(r) == multiset(s) && |r| == |s|
  {
    if s == [] then []
    else
      var init := SortByPriority(s[..|s| - 1]);
      InsertElements(init, s[|s| - 1]);
      assert s == s[..|s| - 1] + [s[|s| - 1]];
      assert multiset(s) == multiset(s[..|s| - 1]) + multiset{s[|s| - 1]};
      var r := Insert(init, s[|s| - 1]);
      assert |r| == |multiset(r)|;
      r
  }

  lemma {:induction false} InsertElements(s: seq<Profile>, p: Profile)
    ensures multiset(Insert(s, p)) == multiset(s) + multiset{p}
  {
    if !(s == [] || s[|s| - 1].priority >= p.priority) {
      InsertElements(s[..|s| - 1], p);
      assert s == s[..|s| - 1] + [s[|s| - 1]];
    }
  }

  lemma {:induction false} InsertSorted(s: seq<Profile>, p: Profile)
    requires SortedByPriority(s)
    ensures SortedByPriority(Insert(s, p))
  {
    if !(s == [] || s[|s| - 1].priority >= p.priority) {
      var init, last := s[..|s| - 1], s[|s| - 1];
      InsertSorted(init, p);
      InsertElements(init, p);
      var r := Insert(init, p);
      forall x | x in r ensures x.priority >= last.priority {
        assert x in multiset(r);
        if x != p {
          assert x in multiset(init);
          assert x in init;
        }
      }
      assert forall i :: 0 <= i < |r| ==> r[i] in r;
    }
  }

  lemma {:induction false} InsertKeepsOrder(s: seq<Profile>, p: Profile, q: int)
    ensures WithPriority(Insert(s, p), q) == WithPriority(s, q) + (if p.priority == q then [p] else [])
  {
    if s == [] || s[|s| - 1].priority >= p.priority {
      assert (s + [p])[..|s|] == s;
    } else {
      var init, last := s[..|s| - 1], s[|s| - 1];
      InsertKeepsOrder(init, p, q);
      var r := Insert(init, p);
      assert (r + [last])[..|r|] == r;
    }
  }

  /**
   * Sorting orders the profiles by descending priority, keeps every
   * profile, and keeps the file order among profiles of equal priority.
   */
  lemma SortIsStable(s: seq<Profile>)
    ensures SortedByPriority(SortByPriority(s))
    ensures multiset(SortByPriority(s)) == multiset(s)
    ensures forall q :: WithPriority(SortByPriority(s), q) == WithPriority(s, q)
  {
    SortSorted(s);
    forall q ensures WithPriority(SortByPriority(s), q) == WithPriority(s, q) {
      SortKeepsOrder(s, q);
    }
  }

  lemma {:induction false} SortSorted(s: seq<Profile>)
    ensures SortedByPriority(SortByPriority(s))
  {
    if s != [] {
      SortSorted(s[..|s| - 1]);
      InsertSorted(SortByPriority(s[..|s| - 1]), s[|s| - 1]);
    }
  }

  lemma {:induction false} SortKeepsOrder(s: seq<Profile>, q: int)
    ensures WithPriority(SortByPriority(s), q) == WithPriority(s, q)
  {
    if s != [] {
      SortKeepsOrder(s[..|s| - 1], q);
      InsertKeepsOrder(SortByPriority(s[..|s| - 1]), s[|s| - 1], q);
    }
  }

  /** The profiles of a list of mappings, in file order. */
  function FromDicts(ds: seq<ProfileData>, colorModes: seq<(string, int)>): (ps: seq<Profile>)
    ensures |ps| == |ds|
  {
    seq(|ds|, i requires 0 <= i < |ds| => FromDict(ds[i], colorModes))
  }

  // Colour-mode names.

  /** `get_color_mode_name`: the first name of the value, else `Mode <value>`. */
  function ModeName(modes: seq<(string, int)>, value: int): string {
    match Assoc.KeyOf(modes, value)
    case Some(n) => n
    case None => "Mode " + Text.IntToString(value)
  }

  /** The loop of `Config.get_color_mode_name` and `MonitorConfig.get_color_mode_name`. */
  method GetColorModeName(modes: seq<(string, int)>, value: int) returns (name: string)
    ensures name == ModeName(modes, value)
  {
    var rest := modes;
    while rest != []
      invariant Assoc.KeyOf(rest, value) == Assoc.KeyOf(modes, value)
      decreases |rest|
    {
      if rest[0].1 == value {
        return rest[0].0;
      }
      rest := rest[1..];
    }
    name := "Mode " + Text.IntToString(value);
  }

  /** A value that has a name is found again under that name. */
  lemma NameLeadsBackToValue(modes: seq<(string, int)>, value: int)
    requires Assoc.UniqueKeys(modes) && Assoc.HasValue(modes, value)
    ensures Assoc.Get(modes, ModeName(modes, value)) == Some(value)
  {
    Assoc.GetIffEntry(modes, ModeName(modes, value), value);
  }

  /** No two entries carry the same value. */
  predicate DistinctValues(modes: seq<(string, int)>) {
    forall a, b :: a in modes && b in modes && a.1 == b.1 ==> a == b
  }

  /** When no two names share a value, the name of a name's value is that name. */
  lemma ValueLeadsBackToName(modes: seq<(string, int)>, name: string)
    requires DistinctValues(modes) && Assoc.HasKey(modes, name)
    ensures ModeName(modes, Assoc.Get(modes, name).value) == name
  {
    Assoc.GetIsEntry(modes, name);
  }

  /** `Config.get_color_mode_value`: unknown names are 0. */
  function ModeValueOrZero(modes: seq<(string, int)>, name: string): (v: int)
    ensures Assoc.HasKey(modes, name) ==> Some(v) == Assoc.Get(modes, name)
    ensures !Assoc.HasKey(modes, name) ==> v == 0
  {
    Assoc.Get(modes, name).GetOr(0)
  }

  // `MonitorConfig.set_color_modes_from_ddc`.

  /**
   * The first loop: user names whose value the monitor offers, in the
   * user's order. No name is lost, and a name is added only for a user
   * entry whose value the monitor reports.
   */
  function KeepUserNames(modes: seq<(string, int)>, user: seq<(string, int)>, ddc: seq<(int, string)>): (r: seq<(string, int)>)
    ensures forall k :: Assoc.HasKey(modes, k) ==> Assoc.HasKey(r, k)
    ensures forall k :: Assoc.HasKey(r, k) ==>
              Assoc.HasKey(modes, k) || exists i :: 0 <= i < |user| && user[i].0 == k && Assoc.HasKey(ddc, user[i].1)
    decreases |user|
  {
    if user == [] then modes
    else
      var next := if Assoc.HasKey(ddc, user[0].1) then Assoc.Put(modes, user[0].0, user[0].1) else modes;
      PutNames(modes, user[0].0, user[0].1);
      var r := KeepUserNames(next, user[1..], ddc);
      assert forall i :: 0 <= i < |user| - 1 ==> user[1..][i] == user[i + 1];
      r
  }

  /**
   * The name a capability value gets when no user name covers it: the
   * capability's own name, unless that is an `Unrecognized` placeholder,
   * which gives way to the `Mode <value>` fallback of `ModeName`. No name
   * given out ever contains `Unrecognized`.
   */
  function DdcName(value: int, ddcName: string): (n: string)
    ensures !Text.Contains(n, "Unrecognized")
    ensures !Text.Contains(ddcName, "Unrecognized") ==> n == ddcName
    ensures Text.Contains(ddcName, "Unrecognized") ==> n == ModeName([], value)
  {
    if Text.Contains(ddcName, "Unrecognized") then
      var m := "Mode " + Text.IntToString(value);
      assert forall k :: 0 <= k < |m| ==> m[k] != 'U' by {
        assert forall k :: 5 <= k < |m| ==> m[k] == Text.IntToString(value)[k - 5];
      }
      Text.NotContainedWithoutFirst(m, "Unrecognized");
      m
    else ddcName
  }

  /**
   * The second loop: every capability value without a name yet is added
   * under its own name. No name is lost, and every new name is the name
   * one of the capability values gets.
   */
  function AddDdcNames(modes: seq<(string, int)>, ddc: seq<(int, string)>): (r: seq<(string, int)>)
    ensures forall k :: Assoc.HasKey(modes, k) ==> Assoc.HasKey(r, k)
    ensures forall k :: Assoc.HasKey(r, k) ==>
              Assoc.HasKey(modes, k) || exists i :: 0 <= i < |ddc| && DdcName(ddc[i].0, ddc[i].1) == k
    decreases |ddc|
  {
    if ddc == [] then modes
    else
      var n := DdcName(ddc[0].0, ddc[0].1);
      var next := if Assoc.HasValue(modes, ddc[0].0) then modes else Assoc.Put(modes, n, ddc[0].0);
      PutNames(modes, n, ddc[0].0);
      var r := AddDdcNames(next, ddc[1..]);
      assert forall i :: 0 <= i < |ddc| - 1 ==> ddc[1..][i] == ddc[i + 1];
      r
  }

  /** `Put` keeps every name and adds only its own. */
  lemma PutNames(modes: seq<(string, int)>, n: string, v: int)
    ensures forall k :: Assoc.HasKey(modes, k) ==> Assoc.HasKey(Assoc.Put(modes, n, v), k)
    ensures forall k :: Assoc.HasKey(Assoc.Put(modes, n, v), k) ==> Assoc.HasKey(modes, k) || k == n
  {
    var r := Assoc.Put(modes, n, v);
    forall k ensures Assoc.HasKey(modes, k) ==> Assoc.HasKey(r, k)
      ensures Assoc.HasKey(r, k) ==> Assoc.HasKey(modes, k) || k == n
    {
      if k != n { assert Assoc.Get(r, k) == Assoc.Get(modes, k); }
      else { assert Assoc.Get(r, k).Some?; }
    }
  }

  /** Both loops from an empty table: every name is a user's name for a reported value, or a capability's name. */
  function ModesFromDdc(ddc: seq<(int, string)>, user: seq<(string, int)>): (r: seq<(string, int)>)
    ensures forall k :: Assoc.HasKey(r, k) ==>
              (exists i :: 0 <= i < |user| && user[i].0 == k && Assoc.HasKey(ddc, user[i].1))
              || (exists i :: 0 <= i < |ddc| && DdcName(ddc[i].0, ddc[i].1) == k)
  {
    AddDdcNames(KeepUserNames([], user, ddc), ddc)
  }

  /** Every value of a table built by either loop is one the monitor reports, under distinct names. */
  predicate Offered(modes: seq<(string, int)>, ddc: seq<(int, string)>) {
    Assoc.UniqueKeys(modes) && forall e :: e in modes ==> Assoc.HasKey(ddc, e.1)
  }

  lemma PutOffered(modes: seq<(string, int)>, ddc: seq<(int, string)>, n: string, v: int)
    requires Offered(modes, ddc) && Assoc.HasKey(ddc, v)
    ensures Offered(Assoc.Put(modes, n, v), ddc)
  {
    Assoc.PutUnique(modes, n, v);
    Assoc.PutEntries(modes, n, v);
  }

  lemma {:induction false} KeepUserNamesOffered(modes: seq<(string, int)>, user: seq<(string, int)>, ddc: seq<(int, string)>)
    requires Offered(modes, ddc)
    ensures Offered(KeepUserNames(modes, user, ddc), ddc)
    decreases |user|
  {
    if user != [] {
      if Assoc.HasKey(ddc, user[0].1) {
        PutOffered(modes, ddc, user[0].0, user[0].1);
      }
      KeepUserNamesOffered(if Assoc.HasKey(ddc, user[0].1) then Assoc.Put(modes, user[0].0, user[0].1) else modes,
                           user[1..], ddc);
    }
  }

  lemma {:induction false} AddDdcNamesOffered(modes: seq<(string, int)>, ddc: seq<(int, string)>, all: seq<(int, string)>)
    requires Offered(modes, all)
    requires forall e :: e in ddc ==> Assoc.HasKey(all, e.0)
    ensures Offered(AddDdcNames(modes, ddc), all)
    decreases |ddc|
  {
    if ddc != [] {
      assert ddc[0] in ddc;
      if !Assoc.HasValue(modes, ddc[0].0) {
        PutOffered(modes, all, DdcName(ddc[0].0, ddc[0].1), ddc[0].0);
      }
      assert forall e :: e in ddc[1..] ==> e in ddc;
      AddDdcNamesOffered(if Assoc.HasValue(modes, ddc[0].0) then modes else Assoc.Put(modes, DdcName(ddc[0].0, ddc[0].1), ddc[0].0),
                         ddc[1..], all);
    }
  }

  /**
   * The colour modes built from the capabilities have distinct names, and
   * every value they offer is one the monitor reports: user names survive
   * only for values the monitor has.
   */
  lemma ModesFromDdcOffered(ddc: seq<(int, string)>, user: seq<(string, int)>)
    ensures Offered(ModesFromDdc(ddc, user), ddc)
  {
    KeepUserNamesOffered([], user, ddc);
    forall e | e in ddc ensures Assoc.HasKey(ddc, e.0) {
      var i :| 0 <= i < |ddc| && ddc[i] == e;
      assert Assoc.Keys(ddc)[i] == e.0;
    }
    AddDdcNamesOffered(KeepUserNames([], user, ddc), ddc, ddc);
  }

  lemma PutFreshValue(modes: seq<(string, int)>, n: string, v: int)
    requires DistinctValues(modes) && !Assoc.HasValue(modes, v)
    ensures DistinctValues(Assoc.Put(modes, n, v))
  {
    Assoc.PutEntries(modes, n, v);
  }

  /**
   * The second loop names a value only when no name carries it yet, so a
   * table in which no two names share a value keeps that property.
   */
  lemma {:induction false} AddDdcNamesDistinct(modes: seq<(string, int)>, ddc: seq<(int, string)>)
    requires DistinctValues(modes)
    ensures DistinctValues(AddDdcNames(modes, ddc))
    decreases |ddc|
  {
    if ddc != [] {
      if !Assoc.HasValue(modes, ddc[0].0) {
        PutFreshValue(modes, DdcName(ddc[0].0, ddc[0].1), ddc[0].0);
      }
      AddDdcNamesDistinct(if Assoc.HasValue(modes, ddc[0].0) then modes else Assoc.Put(modes, DdcName(ddc[0].0, ddc[0].1), ddc[0].0),
                          ddc[1..]);
    }
  }

  /**
   * A capability name that is already a user's name for another value
   * takes that name over: with the user's `Movie` = 5 and the monitor
   * offering 5 as `Standard` and 7 as `Movie`, only 7 keeps a name.
   */
  lemma DdcNameTakesOverUserName()
    ensures ModesFromDdc([(5, "Standard"), (7, "Movie")], [("Movie", 5)]) == [("Movie", 7)]
  {
    var ddc := [(5, "Standard"), (7, "Movie")];
    assert Assoc.HasKey(ddc, 5) by { assert Assoc.Keys(ddc)[0] == 5; }
    var phase1 := [("Movie", 5)];
    assert KeepUserNames([], [("Movie", 5)], ddc) == phase1;
    assert Assoc.HasValue(phase1, 5) by { assert phase1[0] in phase1; }
    assert !Text.Contains("Movie", "Unrecognized");
  }

  /** `profile_name not in d` for every listed name gets `d[name] = value`; nothing else changes. */
  function FillMissing(m: map<string, int>, names: seq<string>, value: int): (r: map<string, int>)
    ensures r.Keys == m.Keys + set n | n in names
    ensures forall k :: k in m ==> r[k] == m[k]
    ensures forall k :: k in r && k !in m ==> r[k] == value
    decreases |names|
  {
    if names == [] then m
    else
      var r := FillMissing(if names[0] in m then m else m[names[0] := value], names[1..], value);
      assert (set n | n in names) == {names[0]} + set n | n in names[1..];
      r
  }

  // Searches over the profile list.

  /** The index of the first profile called `name`, `|ps|` when there is none. */
  function FirstNamed(ps: seq<Profile>, name: string): (i: nat)
    ensures i <= |ps|
    ensures forall j :: 0 <= j < i ==> ps[j].name != name
    ensures i < |ps| ==> ps[i].name == name
  {
    if ps == [] || ps[0].name == name then 0 else 1 + FirstNamed(ps[1..], name)
  }

  /** The `for profile in self.profiles: if profile.name == profile_name: ... break` loop. */
  method FindNamed(ps: seq<Profile>, name: string) returns (i: nat)
    ensures i == FirstNamed(ps, name)
  {
    i := 0;
    while i < |ps| && ps[i].name != name
      invariant i <= |ps|
      invariant forall j :: 0 <= j < i ==> ps[j].name != name
    {
      i := i + 1;
    }
  }

  predicate Holds(p: Profile, wc: string) {
    wc in p.rules.windowClass
  }

  /** The index of the first profile not called `target` whose class list has `wc`. */
  function FirstOtherHolder(ps: seq<Profile>, target: string, wc: string): (i: nat)
    ensures i <= |ps|
    ensures forall j :: 0 <= j < i ==> ps[j].name == target || !Holds(ps[j], wc)
    ensures i < |ps| ==> ps[i].name != target && Holds(ps[i], wc)
  {
    if ps == [] || (ps[0].name != target && Holds(ps[0], wc)) then 0
    else 1 + FirstOtherHolder(ps[1..], target, wc)
  }

  method FindOtherHolder(ps: seq<Profile>, target: string, wc: string) returns (i: nat)
    ensures i == FirstOtherHolder(ps, target, wc)
  {
    i := 0;
    while i < |ps| && !(ps[i].name != target && wc in ps[i].rules.windowClass)
      invariant i <= |ps|
      invariant forall j :: 0 <= j < i ==> ps[j].name == target || !Holds(ps[j], wc)
    {
      i := i + 1;
    }
  }

  // Profile updates.

  /** `settings.color_preset = value`. */
  function WithPreset(p: Profile, value: int): (r: Profile)
    ensures r.settings.colorPreset == Some(value)
    ensures r.(settings := p.settings) == p && r.settings.(colorPreset := p.settings.colorPreset) == p.settings
  {
    p.(settings := p.settings.(colorPreset := Some(value)))
  }

  /** The flag assignments of `save_profile_auto_settings`: `None` arguments change nothing. */
  function WithAuto(p: Profile, autoBrightness: Option<bool>, autoContrast: Option<bool>): (r: Profile)
    ensures autoBrightness.None? ==> r.autoBrightness == p.autoBrightness
    ensures autoBrightness.Some? ==> r.autoBrightness == autoBrightness
    ensures autoContrast.None? ==> r.autoContrast == p.autoContrast
    ensures autoContrast.Some? ==> r.autoContrast == autoContrast
    ensures r.(autoBrightness := p.autoBrightness, autoContrast := p.autoContrast) == p
  {
    p.(autoBrightness := if autoBrightness.Some? then autoBrightness else p.autoBrightness,
       autoContrast := if autoContrast.Some? then autoContrast else p.autoContrast)
  }

  /** The first profile called `name`, updated to `p'`; the others as they were. */
  function ReplaceNamed(ps: seq<Profile>, name: string, p': Profile): (r: seq<Profile>)
    ensures |r| == |ps|
    ensures forall j :: 0 <= j < |ps| && j != FirstNamed(ps, name) ==> r[j] == ps[j]
    ensures FirstNamed(ps, name) < |ps| ==> r[FirstNamed(ps, name)] == p'
  {
    var i := FirstNamed(ps, name);
    if i < |ps| then ps[i := p'] else ps
  }

  /** `list.remove(x)` on a list holding `x`: its first occurrence goes. */
  function RemoveFirst(s: seq<string>, x: string): (r: seq<string>)
    ensures multiset(r) == multiset(s) - multiset{x}
    ensures |r| == if x in s then |s| - 1 else |s|
  {
    if s == [] then []
    else
      assert s == [s[0]] + s[1..];
      if s[0] == x then s[1..] else [s[0]] + RemoveFirst(s[1..], x)
  }

  /** `profile.match.window_class.remove(wc)`: one occurrence fewer, everything else as it was. */
  function RemoveClass(p: Profile, wc: string): (r: Profile)
    ensures r.(rules := p.rules) == p && r.rules.windowTitle == p.rules.windowTitle
    ensures multiset(r.rules.windowClass) == multiset(p.rules.windowClass) - multiset{wc}
  {
    p.(rules := p.rules.(windowClass := RemoveFirst(p.rules.windowClass, wc)))
  }

  /** `profile.match.window_class.append(wc)`: one occurrence more, at the end; everything else as it was. */
  function AddClass(p: Profile, wc: string): (r: Profile)
    ensures r.(rules := p.rules) == p && r.rules.windowTitle == p.rules.windowTitle
    ensures multiset(r.rules.windowClass) == multiset(p.rules.windowClass) + multiset{wc}
    ensures |r.rules.windowClass| > 0 && r.rules.windowClass[|r.rules.windowClass| - 1] == wc
  {
    p.(rules := p.rules.(windowClass := p.rules.windowClass + [wc]))
  }

  /** The outcome of `add_app_to_profile`: the reply and the two profile stores afterwards. */
  datatype AddOutcome = AddOutcome(ok: bool, message: string, defaultProfile: Profile, profiles: seq<Profile>)

  /** The two profile stores after the removal step, and where the class was last taken from. */
  datatype Removal = Removal(defaultProfile: Profile, profiles: seq<Profile>, removedFrom: string)

  /** `window_class in` the target's list, before any change. */
  predicate AlreadyIn(d: Profile, ps: seq<Profile>, target: string, wc: string) {
    if target == "default" then Holds(d, wc)
    else FirstNamed(ps, target) < |ps| && Holds(ps[FirstNamed(ps, target)], wc)
  }

  /**
   * The removal step: the default profile loses the class unless it is
   * the target, then the first profile of another name that has it.
   * Names and order stay; only those two profiles change.
   */
  function RemoveElsewhere(d: Profile, ps: seq<Profile>, target: string, wc: string): (r: Removal)
    ensures Names(r.profiles) == Names(ps) && r.defaultProfile.name == d.name
    ensures FirstNamed(r.profiles, target) == FirstNamed(ps, target)
    ensures r.defaultProfile == (if target != "default" && Holds(d, wc) then RemoveClass(d, wc) else d)
    ensures var h := FirstOtherHolder(ps, target, wc);
            forall j :: 0 <= j < |ps| ==> r.profiles[j] == (if j == h then RemoveClass(ps[j], wc) else ps[j])
  {
    var fromDefault := target != "default" && Holds(d, wc);
    var h := FirstOtherHolder(ps, target, wc);
    var ps1 := if h < |ps| then ps[h := RemoveClass(ps[h], wc)] else ps;
    assert Names(ps1) == Names(ps) by {
      assert forall j :: 0 <= j < |ps| ==> ps1[j].name == ps[j].name;
    }
    SameNamesSameSearch(ps1, ps, target);
    Removal(if fromDefault then RemoveClass(d, wc) else d, ps1,
            if h < |ps| then ps[h].name else if fromDefault then "default" else "")
  }

  /** The reply to a move or an addition: `moved_from:<name>` names a non-empty source. */
  function MoveReply(removedFrom: string): (m: string)
    ensures m != "already_present" && m != "profile_not_found" && m != "Empty window class"
    ensures removedFrom == [] ==> m == "added"
    ensures removedFrom != [] ==> m == "moved_from:" + removedFrom
  {
    var m := if removedFrom != [] then "moved_from:" + removedFrom else "added";
    assert m[0] == if removedFrom != [] then 'm' else 'a';
    assert |"added"| != |"already_present"|;
    m
  }

  /** The placing step: the class is appended to the target, unless no profile has its name. */
  function Place(rm: Removal, target: string, wc: string): (r: AddOutcome)
    ensures r.ok == (target == "default" || FirstNamed(rm.profiles, target) < |rm.profiles|)
    ensures r.ok ==> r.message == MoveReply(rm.removedFrom)
    ensures !r.ok ==> r == AddOutcome(false, "profile_not_found", rm.defaultProfile, rm.profiles)
    ensures r.defaultProfile == (if target == "default" then AddClass(rm.defaultProfile, wc) else rm.defaultProfile)
    ensures var t := FirstNamed(rm.profiles, target);
            |r.profiles| == |rm.profiles|
            && forall j :: 0 <= j < |rm.profiles| ==>
                 r.profiles[j] == (if target != "default" && j == t then AddClass(rm.profiles[j], wc) else rm.profiles[j])
  {
    var t := FirstNamed(rm.profiles, target);
    if target == "default" then AddOutcome(true, MoveReply(rm.removedFrom), AddClass(rm.defaultProfile, wc), rm.profiles)
    else if t < |rm.profiles| then
      AddOutcome(true, MoveReply(rm.removedFrom), rm.defaultProfile, rm.profiles[t := AddClass(rm.profiles[t], wc)])
    else AddOutcome(false, "profile_not_found", rm.defaultProfile, rm.profiles)
  }

  /** Placing keeps every name, and a placed class is then in the target. */
  lemma PlaceReachesTarget(rm: Removal, target: string, wc: string)
    ensures Names(Place(rm, target, wc).profiles) == Names(rm.profiles)
    ensures var r := Place(rm, target, wc);
            r.ok ==> AlreadyIn(r.defaultProfile, r.profiles, target, wc)
  {
    var r := Place(rm, target, wc);
    assert Names(r.profiles) == Names(rm.profiles) by {
      assert forall j :: 0 <= j < |r.profiles| ==> r.profiles[j].name == rm.profiles[j].name;
    }
    SameNamesSameSearch(r.profiles, rm.profiles, target);
  }

  /**
   * `add_app_to_profile` on records that share no list with the raw file
   * data: refuse a blank class, stop when it is already there, else
   * remove and place. The profiles keep their names and order.
   */
  function AddApp(d: Profile, ps: seq<Profile>, target: string, raw: string): (r: AddOutcome)
    ensures Names(r.profiles) == Names(ps) && r.defaultProfile.name == d.name
  {
    var wc := Text.Strip(raw);
    if wc == [] then AddOutcome(false, "Empty window class", d, ps)
    else if AlreadyIn(d, ps, target, wc) then AddOutcome(true, "already_present", d, ps)
    else
      var rm := RemoveElsewhere(d, ps, target, wc);
      PlaceReachesTarget(rm, target, wc);
      Place(rm, target, wc)
  }

  function Names(ps: seq<Profile>): (ns: seq<string>)
    ensures |ns| == |ps| && forall j :: 0 <= j < |ps| ==> ns[j] == ps[j].name
  {
    if ps == [] then [] else [ps[0].name] + Names(ps[1..])
  }

  lemma SameNamesSameSearch(ps: seq<Profile>, qs: seq<Profile>, name: string)
    requires Names(ps) == Names(qs)
    ensures FirstNamed(ps, name) == FirstNamed(qs, name)
  {
    var i, k := FirstNamed(ps, name), FirstNamed(qs, name);
    assert forall j :: 0 <= j < |ps| ==> ps[j].name == Names(ps)[j] == qs[j].name;
  }

  /**
   * The replies of `add_app_to_profile`: an empty or blank class is
   * refused with nothing changed; a class the target already has changes
   * nothing; an unknown profile is reported; otherwise the target ends up
   * with the class.  The profiles keep their names and order throughout.
   */
  lemma AddAppOutcomes(d: Profile, ps: seq<Profile>, target: string, raw: string)
    ensures var r := AddApp(d, ps, target, raw);
            && (Text.Strip(raw) == [] ==> r == AddOutcome(false, "Empty window class", d, ps))
            && (r.message == "already_present" ==> r.ok && r.defaultProfile == d && r.profiles == ps)
            && (Text.Strip(raw) != [] ==>
                  (r.message == "profile_not_found" <==> target != "default" && FirstNamed(ps, target) == |ps|))
            && (r.ok ==> AlreadyIn(r.defaultProfile, r.profiles, target, Text.Strip(raw)))
            && Names(r.profiles) == Names(ps)
            && r.defaultProfile.name == d.name
  {
    var wc := Text.Strip(raw);
    if wc != [] && !AlreadyIn(d, ps, target, wc) {
      PlaceReachesTarget(RemoveElsewhere(d, ps, target, wc), target, wc);
    }
  }

  /** How often a profile list has `wc`. */
  function Count(p: Profile, wc: string): nat {
    multiset(p.rules.windowClass)[wc]
  }

  /**
   * No two profiles have the class, and none has it twice: the state that
   * moving keeps.
   */
  predicate SoleHolder(d: Profile, ps: seq<Profile>, wc: string) {
    Count(d, wc) <= 1
    && (forall j :: 0 <= j < |ps| ==> Count(ps[j], wc) <= 1)
    && (Holds(d, wc) ==> forall j :: 0 <= j < |ps| ==> !Holds(ps[j], wc))
    && (forall j, k :: 0 <= j < k < |ps| && Holds(ps[j], wc) ==> !Holds(ps[k], wc))
  }

  lemma RemoveSole(p: Profile, wc: string)
    requires Count(p, wc) <= 1
    ensures !Holds(RemoveClass(p, wc), wc)
  {
    assert multiset(RemoveClass(p, wc).rules.windowClass)[wc] == 0;
  }

  /** With a single holder, the removal step leaves no profile of another name with the class. */
  lemma RemovalClears(d: Profile, ps: seq<Profile>, target: string, wc: string)
    requires SoleHolder(d, ps, wc)
    ensures var rm := RemoveElsewhere(d, ps, target, wc);
            && (target != "default" ==> !Holds(rm.defaultProfile, wc))
            && forall j :: 0 <= j < |ps| && ps[j].name != target ==> !Holds(rm.profiles[j], wc)
  {
    var h := FirstOtherHolder(ps, target, wc);
    if target != "default" && Holds(d, wc) {
      RemoveSole(d, wc);
    }
    if h < |ps| {
      RemoveSole(ps[h], wc);
    }
  }

  /** Placing touches no profile of another name, and the default profile only when it is the target. */
  lemma PlaceLeavesOthers(rm: Removal, target: string, wc: string)
    ensures var r := Place(rm, target, wc);
            && (target != "default" ==> r.defaultProfile == rm.defaultProfile)
            && |r.profiles| == |rm.profiles|
            && forall j :: 0 <= j < |rm.profiles| && rm.profiles[j].name != target ==> r.profiles[j] == rm.profiles[j]
  {
  }

  /**
   * Moving a class: when, before the call, at most one profile had it and
   * at most once, then after a successful move the class is in the
   * target, and no profile of another name has it any more (the default
   * profile included, unless it is the target).
   */
  lemma AddAppMoves(d: Profile, ps: seq<Profile>, target: string, raw: string)
    requires SoleHolder(d, ps, Text.Strip(raw))
    requires AddApp(d, ps, target, raw).ok
    ensures var r := AddApp(d, ps, target, raw);
            var wc := Text.Strip(raw);
            && AlreadyIn(r.defaultProfile, r.profiles, target, wc)
            && (target != "default" ==> !Holds(r.defaultProfile, wc))
            && forall j :: 0 <= j < |r.profiles| && r.profiles[j].name != target ==> !Holds(r.profiles[j], wc)
  {
    var wc := Text.Strip(raw);
    var t := FirstNamed(ps, target);
    if !AlreadyIn(d, ps, target, wc) {
      RemovalClears(d, ps, target, wc);
      PlaceLeavesOthers(RemoveElsewhere(d, ps, target, wc), target, wc);
    } else if target != "default" {
      assert Holds(ps[t], wc);
    }
  }

  /** A move to a profile that does not exist still takes the class away from where it was. */
  lemma AddAppNotFoundStillRemoves(d: Profile, ps: seq<Profile>, target: string, raw: string)
    requires Text.Strip(raw) != [] && target != "default" && FirstNamed(ps, target) == |ps|
    requires Holds(d, Text.Strip(raw))
    ensures var r := AddApp(d, ps, target, raw);
            !r.ok && r.message == "profile_not_found"
            && r.defaultProfile == RemoveClass(d, Text.Strip(raw))
  {
  }

  lemma OtherClassKept(p: Profile, wc: string, c: string)
    requires c != wc
    ensures Count(RemoveClass(p, wc), c) == Count(p, c) && Count(AddClass(p, wc), c) == Count(p, c)
  {
    assert multiset(AddClass(p, wc).rules.windowClass) == multiset(p.rules.windowClass) + multiset{wc};
  }

  /** Every other class, in every profile, is kept exactly as often as before. */
  lemma AddAppKeepsOtherClasses(d: Profile, ps: seq<Profile>, target: string, raw: string, c: string)
    requires c != Text.Strip(raw)
    ensures var r := AddApp(d, ps, target, raw);
            && |r.profiles| == |ps|
            && Count(r.defaultProfile, c) == Count(d, c)
            && forall j :: 0 <= j < |ps| ==> Count(r.profiles[j], c) == Count(ps[j], c)
  {
    var wc := Text.Strip(raw);
    if wc != [] && !AlreadyIn(d, ps, target, wc) {
      var rm := RemoveElsewhere(d, ps, target, wc);
      var r := Place(rm, target, wc);
      OtherClassKept(d, wc, c);
      OtherClassKept(rm.defaultProfile, wc, c);
      forall j | 0 <= j < |ps| ensures Count(r.profiles[j], c) == Count(ps[j], c) {
        OtherClassKept(ps[j], wc, c);
        OtherClassKept(rm.profiles[j], wc, c);
      }
    }
  }

  /**
   * Moving as evidently intended: when, before the call, at most one
   * profile had the class and at most once, then after a successful call
   * the target has it exactly once.
   */
  lemma AddAppPlacesOnce(d: Profile, ps: seq<Profile>, target: string, raw: string)
    requires SoleHolder(d, ps, Text.Strip(raw))
    requires AddApp(d, ps, target, raw).ok
    ensures var r := AddApp(d, ps, target, raw);
            var wc := Text.Strip(raw);
            && (target == "default" ==> Count(r.defaultProfile, wc) == 1)
            && (target != "default" ==> FirstNamed(ps, target) < |ps| && Count(r.profiles[FirstNamed(ps, target)], wc) == 1)
  {
    var wc := Text.Strip(raw);
    var t := FirstNamed(ps, target);
    if AlreadyIn(d, ps, target, wc) {
      if target == "default" {
        assert wc in multiset(d.rules.windowClass);
      } else {
        assert wc in multiset(ps[t].rules.windowClass);
      }
    } else {
      var rm := RemoveElsewhere(d, ps, target, wc);
      var r := Place(rm, target, wc);
      if target == "default" {
        assert rm.defaultProfile == d;
        assert multiset(r.defaultProfile.rules.windowClass) == multiset(d.rules.windowClass) + multiset{wc};
      } else {
        assert rm.profiles[t] == ps[t];
        assert FirstNamed(rm.profiles, target) == t;
        assert multiset(r.profiles[t].rules.windowClass) == multiset(ps[t].rules.windowClass) + multiset{wc};
      }
    }
  }

  // Profiles read from the file share their class lists with the raw configuration.

  /**
   * Where a parsed profile came from: the position of its mapping among
   * the file's profiles, and whether its class list is that mapping's own
   * `window_class` list (`from_dict` stores the list object itself, so it
   * is whenever the mapping has one).
   */
  datatype Origin = Origin(position: nat, shared: bool)

  /** The profile called `name` whose mapping comes first in the file; `|ps|` when there is none. */
  function FirstInFile(ps: seq<Profile>, origins: seq<Origin>, name: string): (i: nat)
    requires |origins| == |ps|
    ensures i <= |ps|
    ensures i < |ps| ==> (ps[i].name == name
                          && forall k :: 0 <= k < |ps| && ps[k].name == name ==> origins[i].position <= origins[k].position)
    ensures i == |ps| ==> forall k :: 0 <= k < |ps| ==> ps[k].name != name
    decreases |ps|
  {
    if ps == [] then 0
    else
      var r := FirstInFile(ps[1..], origins[1..], name);
      assert forall k :: 1 <= k < |ps| ==> ps[k] == ps[1..][k - 1] && origins[k] == origins[1..][k - 1];
      if ps[0].name != name then (if r == |ps| - 1 then |ps| else r + 1)
      else if r == |ps| - 1 || origins[0].position <= origins[r + 1].position then 0
      else r + 1
  }

  /**
   * The loop over the raw profile mappings: each mapping not called the
   * target loses one occurrence of the class, and so does the parsed
   * profile that shares its list.
   */
  function RemoveFromShared(ps: seq<Profile>, origins: seq<Origin>, target: string, wc: string): (r: seq<Profile>)
    requires |origins| == |ps|
    ensures |r| == |ps| && Names(r) == Names(ps)
    ensures forall j :: 0 <= j < |ps| && !(origins[j].shared && ps[j].name != target) ==> r[j] == ps[j]
    ensures forall j :: 0 <= j < |ps| && origins[j].shared && ps[j].name != target ==> r[j] == RemoveClass(ps[j], wc)
  {
    var r := seq(|ps|, j requires 0 <= j < |ps| =>
                  if origins[j].shared && ps[j].name != target then RemoveClass(ps[j], wc) else ps[j]);
    assert Names(r) == Names(ps) by {
      assert forall j :: 0 <= j < |ps| ==> Names(r)[j] == Names(ps)[j];
    }
    r
  }

  /**
   * `add_app_to_profile` as written, on profiles read from the file. The
   * updates of the raw mappings reach every parsed profile whose list is
   * shared: after the parsed-record steps of `AddApp`, each such profile
   * of another name loses one more occurrence of the class, and the
   * target's first mapping in the file gets the class appended a second
   * time. The default profile is read with its `match` replaced, so its
   * list is never shared.
   */
  function AddAppLoaded(d: Profile, ps: seq<Profile>, origins: seq<Origin>, target: string, raw: string): (r: AddOutcome)
    requires |origins| == |ps|
    ensures Names(r.profiles) == Names(ps) && r.defaultProfile.name == d.name
  {
    var wc := Text.Strip(raw);
    if wc == [] then AddOutcome(false, "Empty window class", d, ps)
    else if AlreadyIn(d, ps, target, wc) then AddOutcome(true, "already_present", d, ps)
    else
      var rm := RemoveElsewhere(d, ps, target, wc);
      var rm' := rm.(profiles := RemoveFromShared(rm.profiles, origins, target, wc));
      PlaceReachesTarget(rm', target, wc);
      var placed := Place(rm', target, wc);
      placed.(profiles := AppendInFile(ps, origins, target, wc, placed.profiles))
  }

  /**
   * The raw placing loop: the target's first mapping in the file gets the
   * class appended, and so does the parsed profile sharing its list.
   */
  function AppendInFile(ps: seq<Profile>, origins: seq<Origin>, target: string, wc: string, placed: seq<Profile>): (r: seq<Profile>)
    requires |origins| == |ps| && Names(placed) == Names(ps)
    ensures Names(r) == Names(ps)
  {
    var f := FirstInFile(ps, origins, target);
    if target != "default" && f < |ps| && origins[f].shared then
      var r := placed[f := AddClass(placed[f], wc)];
      assert Names(r) == Names(placed) by {
        assert forall j :: 0 <= j < |r| ==> Names(r)[j] == Names(placed)[j];
      }
      r
    else placed
  }

  lemma {:induction false} RemoveFirstAbsent(s: seq<string>, x: string)
    requires x !in s
    ensures RemoveFirst(s, x) == s
  {
    if s != [] {
      assert s == [s[0]] + s[1..];
      RemoveFirstAbsent(s[1..], x);
    }
  }

  /** After the removal no profile but the target still holds the class, so the aliased removal has nothing left to do. */
  lemma SharedRemovalNothingLeft(d: Profile, ps: seq<Profile>, origins: seq<Origin>, target: string, wc: string)
    requires |origins| == |ps|
    requires SoleHolder(d, ps, wc) && wc != [] && !AlreadyIn(d, ps, target, wc)
    ensures var rm := RemoveElsewhere(d, ps, target, wc);
            RemoveFromShared(rm.profiles, origins, target, wc) == rm.profiles
  {
    var rm := RemoveElsewhere(d, ps, target, wc);
    RemovalClears(d, ps, target, wc);
    assert Names(rm.profiles) == Names(ps);
    var r := RemoveFromShared(rm.profiles, origins, target, wc);
    forall j | 0 <= j < |ps| ensures r[j] == rm.profiles[j] {
      assert rm.profiles[j].name == Names(ps)[j] == ps[j].name;
      if origins[j].shared && ps[j].name != target {
        RemoveFirstAbsent(rm.profiles[j].rules.windowClass, wc);
      }
    }
  }

  /**
   * On records whose lists are still the file's own, adding a class that a
   * single other profile held gives exactly what the corrected `AddApp`
   * gives, plus one more copy of the class at the end of the target's list.
   */
  lemma LoadedAddAppAddsOneMore(d: Profile, ps: seq<Profile>, origins: seq<Origin>, target: string, raw: string)
    requires |origins| == |ps|
    requires SoleHolder(d, ps, Text.Strip(raw))
    requires Text.Strip(raw) != [] && !AlreadyIn(d, ps, target, Text.Strip(raw)) && target != "default"
    requires FirstInFile(ps, origins, target) < |ps| && origins[FirstInFile(ps, origins, target)].shared
    ensures var f := FirstInFile(ps, origins, target);
            var a := AddApp(d, ps, target, raw);
            |a.profiles| == |ps|
            && AddAppLoaded(d, ps, origins, target, raw) == a.(profiles := a.profiles[f := AddClass(a.profiles[f], Text.Strip(raw))])
  {
    SharedRemovalNothingLeft(d, ps, origins, target, Text.Strip(raw));
  }

  /** A profile that alone carries the name is the one the raw loop finds. */
  lemma FirstInFileSole(ps: seq<Profile>, origins: seq<Origin>, name: string, j: nat)
    requires |origins| == |ps| && j < |ps| && ps[j].name == name
    requires forall k :: 0 <= k < |ps| && k != j ==> ps[k].name != name
    ensures FirstInFile(ps, origins, name) == j
  {
  }

  /** A profile that alone carries the name is the one the parsed search finds. */
  lemma FirstNamedSole(ps: seq<Profile>, name: string, j: nat)
    requires j < |ps| && ps[j].name == name
    requires forall k :: 0 <= k < |ps| && k != j ==> ps[k].name != name
    ensures FirstNamed(ps, name) == j
  {
  }

  /** Past the two early replies, `add_app_to_profile` is the removal step followed by the placing step. */
  lemma AddAppIsPlace(d: Profile, ps: seq<Profile>, target: string, wc: string)
    requires Text.Strip(wc) == wc && wc != [] && !AlreadyIn(d, ps, target, wc)
    ensures AddApp(d, ps, target, wc) == Place(RemoveElsewhere(d, ps, target, wc), target, wc)
  {
  }

  /** Placing into a profile found at `t`: that profile alone gains the class. */
  lemma PlaceAt(rm: Removal, target: string, wc: string, t: nat)
    requires target != "default" && t < |rm.profiles| && FirstNamed(rm.profiles, target) == t
    ensures Place(rm, target, wc)
            == AddOutcome(true, MoveReply(rm.removedFrom), rm.defaultProfile, rm.profiles[t := AddClass(rm.profiles[t], wc)])
  {
  }

  lemma AddClassAppends(p: Profile, wc: string)
    ensures AddClass(p, wc).rules.windowClass == p.rules.windowClass + [wc]
  {
  }

  /**
   * Profiles `A` holding only `wc` and `B` holding only `code`, as read
   * from a file.
   */
  predicate LoadedPair(a: Profile, b: Profile, wc: string) {
    a.name == "A" && a.rules.windowClass == [wc] && b.name == "B" && b.rules.windowClass == ["code"]
    && wc != [] && wc != "code"
  }

  lemma LoadedPairRemoval(a: Profile, b: Profile, wc: string)
    requires LoadedPair(a, b, wc)
    ensures !AlreadyIn(DefaultProfile, [a, b], "B", wc)
    ensures RemoveElsewhere(DefaultProfile, [a, b], "B", wc) == Removal(DefaultProfile, [RemoveClass(a, wc), b], "A")
    ensures RemoveClass(a, wc).rules.windowClass == [] && RemoveClass(a, wc).name == "A"
  {
    FirstNamedSole([a, b], "B", 1);
    assert FirstOtherHolder([a, b], "B", wc) == 0;
    assert RemoveFirst([wc], wc) == [];
  }

  /** The corrected move of `wc` from `A` to `B`, as one outcome. */
  lemma LoadedPairOutcome(a: Profile, b: Profile, wc: string)
    requires LoadedPair(a, b, wc)
    requires Text.Strip(wc) == wc
    ensures AddApp(DefaultProfile, [a, b], "B", wc)
            == AddOutcome(true, "moved_from:A", DefaultProfile, [RemoveClass(a, wc), AddClass(b, wc)])
  {
    LoadedPairRemoval(a, b, wc);
    AddAppIsPlace(DefaultProfile, [a, b], "B", wc);
    LoadedPairPlace(a, b, wc);
  }

  /** The placing step after the removal: `B` gains the class, the reply names `A`. */
  lemma LoadedPairPlace(a: Profile, b: Profile, wc: string)
    requires LoadedPair(a, b, wc)
    ensures Place(Removal(DefaultProfile, [RemoveClass(a, wc), b], "A"), "B", wc)
            == AddOutcome(true, "moved_from:A", DefaultProfile, [RemoveClass(a, wc), AddClass(b, wc)])
  {
    var rm := Removal(DefaultProfile, [RemoveClass(a, wc), b], "A");
    FirstNamedSole(rm.profiles, "B", 1);
    PlaceAt(rm, "B", wc, 1);
    assert rm.profiles[1 := AddClass(b, wc)] == [RemoveClass(a, wc), AddClass(b, wc)];
    assert MoveReply("A") == "moved_from:A";
  }

  lemma LoadedPairCorrected(a: Profile, b: Profile, wc: string)
    requires LoadedPair(a, b, wc)
    requires Text.Strip(wc) == wc
    ensures var r := AddApp(DefaultProfile, [a, b], "B", wc);
            && r.ok && r.message == "moved_from:A" && |r.profiles| == 2
            && r.profiles[0].rules.windowClass == [] && r.profiles[1].rules.windowClass == ["code", wc]
  {
    LoadedPairOutcome(a, b, wc);
    LoadedPairRemoval(a, b, wc);
    AddClassAppends(b, wc);
  }

  lemma LoadedPairSoleHolder(a: Profile, b: Profile, wc: string)
    requires LoadedPair(a, b, wc)
    ensures SoleHolder(DefaultProfile, [a, b], wc)
  {
    assert multiset(a.rules.windowClass)[wc] == 1;
    assert !Holds(b, wc);
  }

  /** As written, the move of `wc` from `A` to `B` is the corrected one with `B`, the first `B` in the file, gaining `wc` again. */
  lemma LoadedPairAsWrittenStep(a: Profile, b: Profile, wc: string)
    requires LoadedPair(a, b, wc)
    requires Text.Strip(wc) == wc
    ensures var c := AddApp(DefaultProfile, [a, b], "B", wc);
            |c.profiles| == 2
            && AddAppLoaded(DefaultProfile, [a, b], [Origin(0, true), Origin(1, true)], "B", wc)
               == c.(profiles := c.profiles[1 := AddClass(c.profiles[1], wc)])
  {
    var ps := [a, b];
    var origins := [Origin(0, true), Origin(1, true)];
    LoadedPairRemoval(a, b, wc);
    LoadedPairSoleHolder(a, b, wc);
    FirstInFileSole(ps, origins, "B", 1);
    LoadedAddAppAddsOneMore(DefaultProfile, ps, origins, "B", wc);
  }

  lemma AddedTwice(b: Profile, wc: string)
    requires b.rules.windowClass == ["code"]
    ensures AddClass(b, wc).rules.windowClass == ["code", wc]
    ensures AddClass(AddClass(b, wc), wc).rules.windowClass == ["code", wc, wc]
  {
    AddClassAppends(b, wc);
    AddClassAppends(AddClass(b, wc), wc);
  }

  lemma LoadedPairAsWritten(a: Profile, b: Profile, wc: string)
    requires LoadedPair(a, b, wc)
    requires Text.Strip(wc) == wc
    ensures var r := AddAppLoaded(DefaultProfile, [a, b], [Origin(0, true), Origin(1, true)], "B", wc);
            && r.ok && r.message == "moved_from:A"
            && r.profiles[0].rules.windowClass == [] && r.profiles[1].rules.windowClass == ["code", wc, wc]
  {
    var r := AddAppLoaded(DefaultProfile, [a, b], [Origin(0, true), Origin(1, true)], "B", wc);
    var c := AddApp(DefaultProfile, [a, b], "B", wc);
    LoadedPairAsWrittenStep(a, b, wc);
    LoadedPairOutcome(a, b, wc);
    assert r.ok && r.message == "moved_from:A";
    assert r.profiles[0] == RemoveClass(a, wc) && r.profiles[1] == AddClass(AddClass(b, wc), wc);
    LoadedPairRemoval(a, b, wc);
    AddedTwice(b, wc);
  }

  /**
   * With `A` = [firefox] and `B` = [code] read from the file, moving
   * `firefox` to `B` as written reports `moved_from:A` and leaves `B`
   * holding it twice; the corrected move leaves it there once.
   */
  lemma LoadedTargetGetsClassTwice(a: Profile, b: Profile)
    requires a.name == "A" && a.rules.windowClass == ["firefox"] && b.name == "B" && b.rules.windowClass == ["code"]
    ensures var r := AddAppLoaded(DefaultProfile, [a, b], [Origin(0, true), Origin(1, true)], "B", "firefox");
            && r.ok && r.message == "moved_from:A"
            && r.profiles[0].rules.windowClass == [] && r.profiles[1].rules.windowClass == ["code", "firefox", "firefox"]
            && AddApp(DefaultProfile, [a, b], "B", "firefox").profiles[1].rules.windowClass == ["code", "firefox"]
  {
    Text.StripUnspaced("firefox");
    LoadedPairAsWritten(a, b, "firefox");
    LoadedPairCorrected(a, b, "firefox");
  }

  /** The global configuration object: colour-mode names and the profiles. */
  class Config {
    var colorModes: seq<(string, int)>
    var profiles: seq<Profile>
    var defaultProfile: Profile

    constructor ()
      ensures colorModes == [] && profiles == [] && defaultProfile == DefaultProfile
    {
      colorModes := [];
      profiles := [];
      defaultProfile := DefaultProfile;
    }

    /**
     * The profile part of `_parse_config`: each profile mapping is read in
     * file order, the list is sorted, and the default profile is read.
     */
    method ParseProfiles(modes: seq<(string, int)>, data: seq<ProfileData>, defaultData: Option<ProfileData>)
      modifies this
      ensures colorModes == modes
      ensures profiles == SortByPriority(FromDicts(data, modes))
      ensures defaultProfile == ParseDefault(defaultData, modes)
    {
      colorModes := modes;
      var parsed: seq<Profile> := [];
      var i := 0;
      while i < |data|
        invariant 0 <= i <= |data|
        invariant |parsed| == i && forall j :: 0 <= j < i ==> parsed[j] == FromDict(data[j], modes)
      {
        parsed := parsed + [FromDict(data[i], modes)];
        i := i + 1;
      }
      assert parsed == FromDicts(data, modes);
      profiles := SortByPriority(parsed);
      defaultProfile := ParseDefault(defaultData, modes);
    }

    /** `get_color_mode_name`. */
    function ColorModeName(value: int): string
      reads this
    {
      ModeName(colorModes, value)
    }

    /** `get_color_mode_value`: 0 for unknown names. */
    function ColorModeValue(name: string): int
      reads this
    {
      ModeValueOrZero(colorModes, name)
    }

    /**
     * `set_profile_color_mode`: an unknown mode name is refused with
     * nothing changed; otherwise the default profile, or the first profile
     * of that name, gets the mode's value as its colour preset, and the
     * reply is the outcome of saving.
     */
    method SetProfileColorMode(profileName: string, modeName: string, saveOk: bool) returns (ok: bool)
      modifies this`profiles, this`defaultProfile
      ensures !Assoc.HasKey(colorModes, modeName) ==>
                !ok && profiles == old(profiles) && defaultProfile == old(defaultProfile)
      ensures Assoc.HasKey(colorModes, modeName) ==> ok == saveOk
      ensures Assoc.HasKey(colorModes, modeName) && profileName == "default" ==>
                defaultProfile == WithPreset(old(defaultProfile), Assoc.Get(colorModes, modeName).value)
                && profiles == old(profiles)
      ensures Assoc.HasKey(colorModes, modeName) && profileName != "default" ==>
                defaultProfile == old(defaultProfile)
                && var i := FirstNamed(old(profiles), profileName);
                   profiles == (if i < |old(profiles)| then ReplaceNamed(old(profiles), profileName,
                                    WithPreset(old(profiles)[i], Assoc.Get(colorModes, modeName).value))
                                else old(profiles))
    {
      var value := Assoc.Get(colorModes, modeName);
      if value.None? {
        return false;
      }
      if profileName == "default" {
        defaultProfile := WithPreset(defaultProfile, value.value);
      } else {
        var i := FindNamed(profiles, profileName);
        if i < |profiles| {
          profiles := profiles[i := WithPreset(profiles[i], value.value)];
        }
      }
      ok := saveOk;
    }

    /**
     * The in-memory effect of `save_profile_auto_settings`: the default
     * profile, or else the first profile of that name, gets the flags that
     * are given; nothing else changes.
     */
    twostate predicate AutoSaved(profileName: string, autoBrightness: Option<bool>, autoContrast: Option<bool>)
      reads this`profiles, this`defaultProfile
    {
      if profileName == "default" then
        defaultProfile == WithAuto(old(defaultProfile), autoBrightness, autoContrast) && profiles == old(profiles)
      else
        defaultProfile == old(defaultProfile)
        && var i := FirstNamed(old(profiles), profileName);
           profiles == (if i < |old(profiles)| then ReplaceNamed(old(profiles), profileName,
                            WithAuto(old(profiles)[i], autoBrightness, autoContrast))
                        else old(profiles))
    }

    /** `save_profile_auto_settings`; the reply is the outcome of saving. */
    method SaveProfileAutoSettings(profileName: string, autoBrightness: Option<bool>, autoContrast: Option<bool>,
                                   saveOk: bool) returns (ok: bool)
      modifies this`profiles, this`defaultProfile
      ensures ok == saveOk
      ensures AutoSaved(profileName, autoBrightness, autoContrast)
    {
      if profileName == "default" {
        defaultProfile := WithAuto(defaultProfile, autoBrightness, autoContrast);
      } else {
        var i := FindNamed(profiles, profileName);
        if i < |profiles| {
          profiles := profiles[i := WithAuto(profiles[i], autoBrightness, autoContrast)];
        }
      }
      ok := saveOk;
    }

    /** `add_app_to_profile`; the outcome of saving does not change the reply. */
    method AddAppToProfile(profileName: string, windowClass: string) returns (ok: bool, message: string)
      modifies this`profiles, this`defaultProfile
      ensures var r := AddApp(old(defaultProfile), old(profiles), profileName, windowClass);
              ok == r.ok && message == r.message && defaultProfile == r.defaultProfile && profiles == r.profiles
    {
      var wc := Text.Strip(windowClass);
      if wc == [] {
        return false, "Empty window class";
      }
      var t := FindNamed(profiles, profileName);
      var already := if profileName == "default" then wc in defaultProfile.rules.windowClass
                     else t < |profiles| && wc in profiles[t].rules.windowClass;
      if already {
        return true, "already_present";
      }
      var removedFrom := RemoveApp(profileName, wc);
      ok, message := PlaceApp(profileName, wc, removedFrom);
    }

    /** The removal step of `add_app_to_profile`. */
    method RemoveApp(profileName: string, wc: string) returns (removedFrom: string)
      modifies this`profiles, this`defaultProfile
      ensures Removal(defaultProfile, profiles, removedFrom) == RemoveElsewhere(old(defaultProfile), old(profiles), profileName, wc)
    {
      removedFrom := "";
      if profileName != "default" && wc in defaultProfile.rules.windowClass {
        defaultProfile := RemoveClass(defaultProfile, wc);
        removedFrom := "default";
      }
      var h := FindOtherHolder(profiles, profileName, wc);
      if h < |profiles| {
        removedFrom := profiles[h].name;
        profiles := profiles[h := RemoveClass(profiles[h], wc)];
      }
    }

    /** The placing step of `add_app_to_profile`. */
    method PlaceApp(profileName: string, wc: string, removedFrom: string) returns (ok: bool, message: string)
      modifies this`profiles, this`defaultProfile
      ensures var r := Place(Removal(old(defaultProfile), old(profiles), removedFrom), profileName, wc);
              ok == r.ok && message == r.message && defaultProfile == r.defaultProfile && profiles == r.profiles
    {
      if profileName == "default" {
        defaultProfile := AddClass(defaultProfile, wc);
      } else {
        var t := FindNamed(profiles, profileName);
        if t == |profiles| {
          return false, "profile_not_found";
        }
        profiles := profiles[t := AddClass(profiles[t], wc)];
      }
      ok := true;
      message := MoveReply(removedFrom);
    }
  }

  /** `MonitorConfig`: the per-monitor colour-mode names and per-profile colour choices. */
  class MonitorConfig {
    const monitorId: string
    var colorModes: seq<(string, int)>
    var profileColorModes: map<string, int>
    var profileColorPresets: map<string, int>

    constructor (monitorId: string)
      ensures this.monitorId == monitorId
      ensures colorModes == [] && profileColorModes == map[] && profileColorPresets == map[]
    {
      this.monitorId := monitorId;
      colorModes := [];
      profileColorModes := map[];
      profileColorPresets := map[];
    }

    /** `set_color_modes_from_ddc`: the two loops over the user's names and the capability values. */
    method SetColorModesFromDdc(ddc: seq<(int, string)>, user: seq<(string, int)>)
      modifies this`colorModes
      ensures colorModes == ModesFromDdc(ddc, user)
    {
      var modes: seq<(string, int)> := [];
      var rest := user;
      while rest != []
        invariant KeepUserNames(modes, rest, ddc) == KeepUserNames([], user, ddc)
        decreases |rest|
      {
        var entry := rest[0];
        if Assoc.HasKey(ddc, entry.1) {
          modes := Assoc.Put(modes, entry.0, entry.1);
        }
        rest := rest[1..];
      }
      var values := ddc;
      while values != []
        invariant AddDdcNames(modes, values) == ModesFromDdc(ddc, user)
        decreases |values|
      {
        var entry := values[0];
        if !Assoc.HasValue(modes, entry.0) {
          modes := Assoc.Put(modes, DdcName(entry.0, entry.1), entry.0);
        }
        values := values[1..];
      }
      colorModes := modes;
    }

    /** `get_color_mode_value`: `None` for unknown names. */
    function GetColorModeValue(name: string): (v: Option<int>)
      reads this
      ensures v.Some? <==> Assoc.HasKey(colorModes, name)
    {
      Assoc.Get(colorModes, name)
    }

    /** `get_color_mode_name`. */
    function ColorModeName(value: int): string
      reads this
    {
      ModeName(colorModes, value)
    }

    /** `get_profile_color_mode_name`: the profile's mode by name, `Unknown` when it has none. */
    function ProfileColorModeName(profile: string): (n: string)
      reads this
      ensures profile !in profileColorModes ==> n == "Unknown"
      ensures profile in profileColorModes ==> n == ModeName(colorModes, profileColorModes[profile])
    {
      if profile in profileColorModes then ModeName(colorModes, profileColorModes[profile]) else "Unknown"
    }

    /** `set_profile_color_mode`. */
    method SetProfileColorMode(profile: string, value: int)
      modifies this`profileColorModes
      ensures profileColorModes == old(profileColorModes)[profile := value]
    {
      profileColorModes := profileColorModes[profile := value];
    }

    /** `set_profile_color_preset`. */
    method SetProfileColorPreset(profile: string, value: int)
      modifies this`profileColorPresets
      ensures profileColorPresets == old(profileColorPresets)[profile := value]
    {
      profileColorPresets := profileColorPresets[profile := value];
    }

    /** `initialize_profile_color_modes`: only profiles without a colour mode get the current one. */
    method InitializeProfileColorModes(names: seq<string>, current: int)
      modifies this`profileColorModes
      ensures profileColorModes == FillMissing(old(profileColorModes), names, current)
    {
      var i := 0;
      while i < |names|
        invariant 0 <= i <= |names|
        invariant FillMissing(profileColorModes, names[i..], current) == FillMissing(old(profileColorModes), names, current)
      {
        assert names[i..][1..] == names[i + 1..];
        if names[i] !in profileColorModes {
          profileColorModes := profileColorModes[names[i] := current];
        }
        i := i + 1;
      }
    }
  }
}
