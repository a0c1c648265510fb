/**
 * main.py: the parts of `MonitorControlApp` that decide values rather
 * than draw them: the names of the monitor tabs, the initialisation of
 * the per-monitor profile colour tables, the table of colour-mode names
 * shown per profile, the handling of a profile colour edit, and the
 * coalescing of slider writes.
 *
 * The writer threads of the slider handlers are modelled as separate
 * events, so that any interleaving of requests and writer steps can be
 * stated; what the writers hand to the channel is recorded as a log of
 * writes.
 */
module App {
  import opened Wrappers
  import Text
  import Ddc
  import DdcChannel
  import VcpReply
  import Config
  import Profiles

  // Monitor tab names (`_populate_monitors`).

  /** The model, unless it is empty or `Unknown`; then the manufacturer likewise; else `Unknown Monitor`. */
  function BaseName(m: Ddc.MonitorInfo): string {
    if m.model != "" && m.model != "Unknown" then m.model
    else if m.manufacturer != "" && m.manufacturer != "Unknown" then m.manufacturer
    else "Unknown Monitor"
  }

  function DisplaySuffix(n: int): string {
    " (Display " + Text.IntToString(n) + ")"
  }

  /** The tab name of a detected monitor. */
  function DisplayName(m: Ddc.MonitorInfo): (n: string)
    ensures |n| > |DisplaySuffix(m.displayNumber)| && n[|n| - |DisplaySuffix(m.displayNumber)|..] == DisplaySuffix(m.displayNumber)
  {
    var b := BaseName(m);
    assert b != [];
    b + DisplaySuffix(m.displayNumber)
  }

  /**
   * Every tab name starts with the model when it is known, else with the
   * manufacturer when that is known, else with `Unknown Monitor`, and
   * ends with ` (Display n)`.
   */
  lemma DisplayNameShape(m: Ddc.MonitorInfo)
    ensures var n := DisplayName(m);
            var suffix := " (Display " + Text.IntToString(m.displayNumber) + ")";
            && |n| > |suffix| && n[|n| - |suffix|..] == suffix
            && (m.model != "" && m.model != "Unknown" ==> n[..|m.model|] == m.model)
            && (!(m.model != "" && m.model != "Unknown") && m.manufacturer != "" && m.manufacturer != "Unknown" ==>
                  n[..|m.manufacturer|] == m.manufacturer)
            && ((m.model == "" || m.model == "Unknown") && (m.manufacturer == "" || m.manufacturer == "Unknown") ==>
                  n[..15] == "Unknown Monitor")
  {
    var b := BaseName(m);
    assert b != [];
    assert DisplayName(m)[..|b|] == b;
  }

  /** The digits of two suffixes agree when the strings they end agree. */
  lemma SuffixDigitsAgree(b1: string, d1: string, b2: string, d2: string)
    requires d1 != [] && forall k :: 0 <= k < |d1| ==> Text.IsDigit(d1[k])
    requires d2 != [] && forall k :: 0 <= k < |d2| ==> Text.IsDigit(d2[k])
    requires b1 + " (Display " + d1 + ")" == b2 + " (Display " + d2 + ")"
    ensures d1 == d2
  {
    var s1 := b1 + " (Display " + d1 + ")";
    var s2 := b2 + " (Display " + d2 + ")";
    var len := |s1|;
    assert |s2| == len;
    forall k | 0 <= k < |d1|
      ensures s1[len - 1 - |d1| + k] == d1[k]
    {
    }
    forall k | 0 <= k < |d2|
      ensures s2[len - 1 - |d2| + k] == d2[k]
    {
    }
    assert s1[len - 2 - |d1|] == ' ';
    assert s2[len - 2 - |d2|] == ' ';
    assert |d1| == |d2|;
    assert d1 == s1[len - 1 - |d1|..len - 1];
    assert d2 == s2[len - 1 - |d2|..len - 1];
  }

  /** The tab name of a monitor with a non-negative display number, piece by piece. */
  lemma DisplayNameParts(m: Ddc.MonitorInfo)
    requires m.displayNumber >= 0
    ensures DisplayName(m) == BaseName(m) + " (Display " + Text.NatToString(m.displayNumber) + ")"
  {
  }

  /** Monitors with different display numbers get different tab names. */
  lemma DisplayNamesDistinct(m1: Ddc.MonitorInfo, m2: Ddc.MonitorInfo)
    requires m1.displayNumber >= 0 && m2.displayNumber >= 0
    requires m1.displayNumber != m2.displayNumber
    ensures DisplayName(m1) != DisplayName(m2)
  {
    if DisplayName(m1) == DisplayName(m2) {
      var d1 := Text.NatToString(m1.displayNumber);
      var d2 := Text.NatToString(m2.displayNumber);
      DisplayNameParts(m1);
      DisplayNameParts(m2);
      SuffixDigitsAgree(BaseName(m1), d1, BaseName(m2), d2);
      Text.ParseDecimalNatToString(m1.displayNumber);
      Text.ParseDecimalNatToString(m2.displayNumber);
    }
  }

  /** The `monitor_list` loop of `_populate_monitors`. */
  method MonitorList(ms: seq<Ddc.MonitorInfo>) returns (list: seq<(int, string)>)
    ensures |list| == |ms|
    ensures forall k :: 0 <= k < |ms| ==> list[k] == (ms[k].displayNumber, DisplayName(ms[k]))
  {
    list := [];
    var i := 0;
    while i < |ms|
      invariant 0 <= i <= |ms|
      invariant |list| == i
      invariant forall k :: 0 <= k < i ==> list[k] == (ms[k].displayNumber, DisplayName(ms[k]))
    {
      var m := ms[i];
      var name: string;
      if m.model != "" && m.model != "Unknown" {
        name := m.model;
      } else if m.manufacturer != "" && m.manufacturer != "Unknown" {
        name := m.manufacturer;
      } else {
        name := "Unknown Monitor";
      }
      name := name + DisplaySuffix(m.displayNumber);
      list := list + [(m.displayNumber, name)];
      i := i + 1;
    }
  }

  /** Distinct non-negative display numbers give a list of distinct tab names. */
  lemma MonitorListNamesDistinct(ms: seq<Ddc.MonitorInfo>)
    requires forall k :: 0 <= k < |ms| ==> ms[k].displayNumber >= 0
    requires forall j, k :: 0 <= j < k < |ms| ==> ms[j].displayNumber != ms[k].displayNumber
    ensures forall j, k :: 0 <= j < k < |ms| ==> DisplayName(ms[j]) != DisplayName(ms[k])
  {
    forall j, k | 0 <= j < k < |ms|
      ensures DisplayName(ms[j]) != DisplayName(ms[k])
    {
      DisplayNamesDistinct(ms[j], ms[k]);
    }
  }

  // Profile colour tables of a monitor (`_populate_monitors`).

  /** `["default"] + [p.name for p in self.config.profiles]`. */
  function ProfileNames(ps: seq<Config.Profile>): seq<string> {
    ["default"] + Config.Names(ps)
  }

  /** `[p for p in names if p not in table]`. */
  function Missing(names: seq<string>, table: map<string, int>): (r: seq<string>)
    ensures forall n :: n in r <==> n in names && n !in table
  {
    if names == [] then []
    else (if names[0] !in table then [names[0]] else []) + Missing(names[1..], table)
  }

  /** The value a read of the monitor gives for the table: the current value, or the placeholder -1 on any error. */
  function ReadOrPlaceholder(r: Result<VcpReply.VcpFeature, DdcChannel.DdcError>): int {
    if r.Success? then r.value.currentValue else -1
  }

  /** One `get_vcp` of the initialisation, whose errors give the placeholder. */
  method ReadCurrent(ddc: DdcChannel.DdcController, code: int)
    returns (v: int, ghost r: Result<VcpReply.VcpFeature, DdcChannel.DdcError>)
    modifies ddc`unsupported, ddc`vcpCache, ddc`busyLog, ddc`commandLog, ddc`events
    ensures v == ReadOrPlaceholder(r)
    ensures old(code in ddc.unsupported) ==> v == -1 && ddc.commandLog == old(ddc.commandLog)
    ensures r.Success? ==> ddc.vcpCache == old(ddc.vcpCache)[code := r.value.currentValue]
    ensures r.Failure? ==> ddc.vcpCache == old(ddc.vcpCache)
  {
    var read := ddc.GetVcp(code);
    v := -1;
    if read.Success? {
      v := read.value.currentValue;
    }
    r := read;
  }

  /** Two maps with the same keys and values are equal. */
  lemma MapsEqual(a: map<string, int>, b: map<string, int>)
    requires forall k :: k in a <==> k in b
    requires forall k :: k in a ==> a[k] == b[k]
    ensures a == b
  {
  }

  /** The `for profile_name in missing_modes` loop. */
  method SetMissingModes(mc: Config.MonitorConfig, names: seq<string>, value: int)
    modifies mc`profileColorModes
    ensures mc.profileColorModes == Config.FillMissing(old(mc.profileColorModes), names, value)
  {
    ghost var before := mc.profileColorModes;
    var missing := Missing(names, mc.profileColorModes);
    var i := 0;
    while i < |missing|
      invariant 0 <= i <= |missing|
      invariant forall k :: k in mc.profileColorModes <==> k in before || k in missing[..i]
      invariant forall k :: k in before ==> mc.profileColorModes[k] == before[k]
      invariant forall k :: k in mc.profileColorModes && k !in before ==> mc.profileColorModes[k] == value
    {
      assert missing[..i + 1] == missing[..i] + [missing[i]];
      mc.SetProfileColorMode(missing[i], value);
      i := i + 1;
    }
    assert missing[..i] == missing;
    MapsEqual(mc.profileColorModes, Config.FillMissing(before, names, value));
  }

  /** The `for profile_name in missing_presets` loop. */
  method SetMissingPresets(mc: Config.MonitorConfig, names: seq<string>, value: int)
    modifies mc`profileColorPresets
    ensures mc.profileColorPresets == Config.FillMissing(old(mc.profileColorPresets), names, value)
  {
    ghost var before := mc.profileColorPresets;
    var missing := Missing(names, mc.profileColorPresets);
    var i := 0;
    while i < |missing|
      invariant 0 <= i <= |missing|
      invariant forall k :: k in mc.profileColorPresets <==> k in before || k in missing[..i]
      invariant forall k :: k in before ==> mc.profileColorPresets[k] == before[k]
      invariant forall k :: k in mc.profileColorPresets && k !in before ==> mc.profileColorPresets[k] == value
    {
      assert missing[..i + 1] == missing[..i] + [missing[i]];
      mc.SetProfileColorPreset(missing[i], value);
      i := i + 1;
    }
    assert missing[..i] == missing;
    MapsEqual(mc.profileColorPresets, Config.FillMissing(before, names, value));
  }

  /**
   * The initialisation of a monitor's profile colour tables: when some
   * profile lacks a colour mode or a colour preset (and the channel is in
   * use), 0xDC and 0x14 are read once each and every profile missing from
   * a table gets the value read, or -1 when the read failed; entries
   * already present are kept.  Otherwise nothing is read or changed.
   */
  method InitProfileColors(mc: Config.MonitorConfig, ddc: DdcChannel.DdcController, names: seq<string>, skipDdc: bool)
    returns (mode: int, preset: int,
             ghost modeRead: Result<VcpReply.VcpFeature, DdcChannel.DdcError>,
             ghost presetRead: Result<VcpReply.VcpFeature, DdcChannel.DdcError>)
    modifies mc`profileColorModes, mc`profileColorPresets
    modifies ddc`unsupported, ddc`vcpCache, ddc`busyLog, ddc`commandLog, ddc`events
    ensures var needed := !skipDdc && (Missing(names, old(mc.profileColorModes)) != []
                                      || Missing(names, old(mc.profileColorPresets)) != []);
            && (!needed ==> mc.profileColorModes == old(mc.profileColorModes)
                            && mc.profileColorPresets == old(mc.profileColorPresets)
                            && ddc.commandLog == old(ddc.commandLog) && ddc.vcpCache == old(ddc.vcpCache))
            && (needed ==> mode == ReadOrPlaceholder(modeRead) && preset == ReadOrPlaceholder(presetRead)
                           && mc.profileColorModes == Config.FillMissing(old(mc.profileColorModes), names, mode)
                           && mc.profileColorPresets == Config.FillMissing(old(mc.profileColorPresets), names, preset))
  {
    mode, preset := -1, -1;
    modeRead, presetRead := Failure(DdcChannel.Unsupported), Failure(DdcChannel.Unsupported);
    var missingModes := Missing(names, mc.profileColorModes);
    var missingPresets := Missing(names, mc.profileColorPresets);
    if (missingModes == [] && missingPresets == []) || skipDdc {
      return;
    }
    mode, modeRead := ReadCurrent(ddc, Ddc.VcpColorPreset);
    preset, presetRead := ReadCurrent(ddc, Ddc.VcpColorTemp);
    SetMissingModes(mc, names, mode);
    SetMissingPresets(mc, names, preset);
  }

  // The colour-mode name shown per profile (`_get_profile_color_modes`).

  /** The first profile called `name` that has a colour preset, `|ps|` when there is none. */
  function FirstWithPreset(ps: seq<Config.Profile>, name: string): (j: nat)
    ensures j <= |ps|
    ensures forall i :: 0 <= i < j ==> !(ps[i].name == name && ps[i].settings.colorPreset.Some?)
    ensures j < |ps| ==> ps[j].name == name && ps[j].settings.colorPreset.Some?
  {
    if ps == [] || (ps[0].name == name && ps[0].settings.colorPreset.Some?) then 0
    else 1 + FirstWithPreset(ps[1..], name)
  }

  /** What the per-monitor configuration contributes: its profile colour modes and its mode names. */
  datatype MonitorTables = MonitorTables(profileModes: map<string, int>, modes: seq<(string, int)>)

  /**
   * The name for one profile: from the monitor's table when it has an
   * entry, else from the global configuration's colour preset of the
   * default profile or of the first such-named profile that has one;
   * `None` when neither has a value.
   */
  function NameFor(mc: Option<MonitorTables>, cfgModes: seq<(string, int)>, defaultProfile: Config.Profile,
                   ps: seq<Config.Profile>, name: string): Option<string>
  {
    if mc.Some? && name in mc.value.profileModes then Some(Config.ModeName(mc.value.modes, mc.value.profileModes[name]))
    else if name == "default" then
      if defaultProfile.settings.colorPreset.Some? then Some(Config.ModeName(cfgModes, defaultProfile.settings.colorPreset.value))
      else None
    else
      var j := FirstWithPreset(ps, name);
      if j < |ps| then Some(Config.ModeName(cfgModes, ps[j].settings.colorPreset.value)) else None
  }

  /** The dictionary built by the loop over the profile names. */
  function ModeNames(mc: Option<MonitorTables>, cfgModes: seq<(string, int)>, defaultProfile: Config.Profile,
                     ps: seq<Config.Profile>, names: seq<string>): map<string, string>
  {
    if names == [] then map[]
    else
      var r := ModeNames(mc, cfgModes, defaultProfile, ps, names[..|names| - 1]);
      var n := NameFor(mc, cfgModes, defaultProfile, ps, names[|names| - 1]);
      if n.Some? then r[names[|names| - 1] := n.value] else r
  }

  /**
   * The dictionary has exactly the listed profiles for which some table
   * gives a value, each with the name `NameFor` gives it.
   */
  lemma {:induction false} ModeNamesMeaning(mc: Option<MonitorTables>, cfgModes: seq<(string, int)>,
                                            defaultProfile: Config.Profile, ps: seq<Config.Profile>, names: seq<string>)
    ensures var r := ModeNames(mc, cfgModes, defaultProfile, ps, names);
            forall n :: (n in r <==> n in names && NameFor(mc, cfgModes, defaultProfile, ps, n).Some?)
                        && (n in r ==> r[n] == NameFor(mc, cfgModes, defaultProfile, ps, n).value)
  {
    if names != [] {
      ModeNamesMeaning(mc, cfgModes, defaultProfile, ps, names[..|names| - 1]);
      assert forall n :: n in names <==> n in names[..|names| - 1] || n == names[|names| - 1] by {
        assert names == names[..|names| - 1] + [names[|names| - 1]];
      }
    }
  }

  /**
   * The fallback order: the monitor's own entry wins; without one the
   * default profile's preset, or the preset of the first profile of that
   * name that has one, is named with the global mode names; a profile
   * with neither is left out.
   */
  lemma NameFallback(mc: Option<MonitorTables>, cfgModes: seq<(string, int)>, defaultProfile: Config.Profile,
                     ps: seq<Config.Profile>, name: string)
    ensures var n := NameFor(mc, cfgModes, defaultProfile, ps, name);
            && (mc.Some? && name in mc.value.profileModes ==>
                  n == Some(Config.ModeName(mc.value.modes, mc.value.profileModes[name])))
            && (!(mc.Some? && name in mc.value.profileModes) && name == "default" ==>
                  (n.Some? <==> defaultProfile.settings.colorPreset.Some?))
            && (!(mc.Some? && name in mc.value.profileModes) && name != "default" ==>
                  ((n.Some? <==> exists j :: 0 <= j < |ps| && ps[j].name == name && ps[j].settings.colorPreset.Some?)
                   && (n.Some? ==> exists j :: 0 <= j < |ps| && ps[j].name == name && ps[j].settings.colorPreset.Some?
                                               && n.value == Config.ModeName(cfgModes, ps[j].settings.colorPreset.value))))
  {
    var j := FirstWithPreset(ps, name);
    if j < |ps| {
      assert ps[j].name == name && ps[j].settings.colorPreset.Some?;
    }
  }

  function TablesOf(mc: Config.MonitorConfig?): Option<MonitorTables>
    reads mc
  {
    if mc == null then None else Some(MonitorTables(mc.profileColorModes, mc.colorModes))
  }

  /** `_get_profile_color_modes` with the monitor configuration `mc` (or none). */
  method GetProfileColorModes(mc: Config.MonitorConfig?, cfg: Config.Config) returns (result: map<string, string>)
    ensures result == ModeNames(TablesOf(mc), cfg.colorModes, cfg.defaultProfile, cfg.profiles, ProfileNames(cfg.profiles))
  {
    var names := ProfileNames(cfg.profiles);
    result := map[];
    var i := 0;
    while i < |names|
      invariant 0 <= i <= |names|
      invariant result == ModeNames(TablesOf(mc), cfg.colorModes, cfg.defaultProfile, cfg.profiles, names[..i])
    {
      assert names[..i + 1][..i] == names[..i];
      var n := LookUpName(mc, cfg, names[i]);
      if n.Some? {
        result := result[names[i] := n.value];
      }
      i := i + 1;
    }
    assert names[..|names|] == names;
  }

  /** The body of the loop of `_get_profile_color_modes` for one profile name. */
  method LookUpName(mc: Config.MonitorConfig?, cfg: Config.Config, name: string) returns (n: Option<string>)
    ensures n == NameFor(TablesOf(mc), cfg.colorModes, cfg.defaultProfile, cfg.profiles, name)
  {
    if mc != null && name in mc.profileColorModes {
      return Some(mc.ColorModeName(mc.profileColorModes[name]));
    }
    if name == "default" {
      if cfg.defaultProfile.settings.colorPreset.Some? {
        return Some(cfg.ColorModeName(cfg.defaultProfile.settings.colorPreset.value));
      }
      return None;
    }
    var j := 0;
    while j < |cfg.profiles|
      invariant 0 <= j <= |cfg.profiles|
      invariant forall k :: 0 <= k < j ==> !(cfg.profiles[k].name == name && cfg.profiles[k].settings.colorPreset.Some?)
    {
      var p := cfg.profiles[j];
      if p.name == name && p.settings.colorPreset.Some? {
        assert FirstWithPreset(cfg.profiles, name) == j;
        return Some(cfg.ColorModeName(p.settings.colorPreset.value));
      }
      j := j + 1;
    }
    n := None;
  }

  // A profile colour edit (`_on_profile_mode_change`).

  /** `active_profile.name if active_profile else "default"`. */
  function ActiveName(active: Option<Config.Profile>): string {
    if active.Some? then active.value.name else "default"
  }

  /**
   * An edit stores a combined value from 0x1000 on as the profile's 0x14
   * preset (less the offset) and any other as its 0xDC mode, touching only
   * that one table and only that profile's entry.
   */
  method StoreEdit(mc: Config.MonitorConfig, profileName: string, value: int)
    modifies mc`profileColorModes, mc`profileColorPresets
    ensures value >= Ddc.PresetOffset ==>
              mc.profileColorPresets == old(mc.profileColorPresets)[profileName := value - Ddc.PresetOffset]
              && mc.profileColorModes == old(mc.profileColorModes)
    ensures value < Ddc.PresetOffset ==>
              mc.profileColorModes == old(mc.profileColorModes)[profileName := value]
              && mc.profileColorPresets == old(mc.profileColorPresets)
  {
    if value >= Ddc.PresetOffset {
      mc.SetProfileColorPreset(profileName, value - Ddc.PresetOffset);
    } else {
      mc.SetProfileColorMode(profileName, value);
    }
  }

  /**
   * A forced application of a profile whose monitor entry holds a
   * non-negative 0xDC mode sends that mode, and after success the cache
   * holds it.
   */
  lemma ForcedModeIsSent(p: Config.Profile, modes: map<string, int>, presets: map<string, int>,
                         before: map<int, int>, after: map<int, int>, dc: Option<bool>, cp: Option<bool>)
    requires p.name in modes && 0 <= modes[p.name] < Ddc.PresetOffset
    requires Profiles.ColorsWritten(Profiles.ColorValues(Profiles.CombinedFor(p, modes), Profiles.SeparateFor(p, presets)),
                                    true, before, after, dc, cp)
    ensures dc.Some?
    ensures dc == Some(true) ==> Ddc.VcpColorPreset in after && after[Ddc.VcpColorPreset] == modes[p.name]
  {
    var c := Profiles.ColorValues(Profiles.CombinedFor(p, modes), Profiles.SeparateFor(p, presets));
    assert c.displayMode == Some(modes[p.name]);
  }

  /**
   * A forced application of a profile whose monitor entry holds a
   * non-negative 0x14 preset sends that preset, and after success the
   * cache holds it.
   */
  lemma ForcedPresetIsSent(p: Config.Profile, modes: map<string, int>, presets: map<string, int>,
                           before: map<int, int>, after: map<int, int>, dc: Option<bool>, cp: Option<bool>)
    requires p.name in presets && 0 <= presets[p.name]
    requires Profiles.ColorsWritten(Profiles.ColorValues(Profiles.CombinedFor(p, modes), Profiles.SeparateFor(p, presets)),
                                    true, before, after, dc, cp)
    ensures cp.Some?
    ensures cp == Some(true) ==> Ddc.VcpColorTemp in after && after[Ddc.VcpColorTemp] == presets[p.name]
  {
  }

  /**
   * `_on_profile_mode_change` run to completion: with a monitor
   * configuration that knows the mode name, the edit is stored; then, when
   * the edited profile is the active one (the default profile when none
   * is active), it is applied again with `force`.  `ddc` is the manager's
   * channel.
   */
  method ProfileModeChange(mc: Config.MonitorConfig?, pm: Profiles.ProfileManager?, ddc: DdcChannel.DdcController?,
                           cfg: Config.Config, profileName: string, modeName: string)
    returns (ghost target: Option<Config.Profile>, ghost dcSent: Option<bool>, ghost cpSent: Option<bool>)
    requires pm != null ==> ddc == pm.ddc
    modifies (if mc == null then {} else {mc})`profileColorModes, (if mc == null then {} else {mc})`profileColorPresets
    modifies (if pm == null then {} else {pm})`activeProfile, (if pm == null then {} else {pm})`autoBrightness
    modifies (if pm == null then {} else {pm})`autoContrast, (if pm == null then {} else {pm})`profileReports
    modifies (if ddc == null then {} else {ddc})`vcpCache, (if ddc == null then {} else {ddc})`commandLog
    modifies (if ddc == null then {} else {ddc})`busyLog, (if ddc == null then {} else {ddc})`events
    ensures mc == null || old(mc.GetColorModeValue(modeName)).None? ==>
              target.None? && (mc != null ==> mc.profileColorModes == old(mc.profileColorModes)
                                                && mc.profileColorPresets == old(mc.profileColorPresets))
    ensures mc != null && old(mc.GetColorModeValue(modeName)).Some? ==>
              var v := old(mc.GetColorModeValue(modeName)).value;
              && (v >= Ddc.PresetOffset ==>
                    mc.profileColorPresets == old(mc.profileColorPresets)[profileName := v - Ddc.PresetOffset]
                    && mc.profileColorModes == old(mc.profileColorModes))
              && (v < Ddc.PresetOffset ==>
                    mc.profileColorModes == old(mc.profileColorModes)[profileName := v]
                    && mc.profileColorPresets == old(mc.profileColorPresets))
              && (target.Some? <==> pm != null && ActiveName(old(pm.activeProfile)) == profileName)
    ensures target.Some? ==>
              pm != null && target.value == old(pm.activeProfile).GetOr(cfg.defaultProfile)
              && pm.Applied(target.value, true, dcSent, cpSent)
    ensures target.None? && pm != null ==> pm.Kept()
    ensures target.Some? && mc != null && pm != null && pm.colorSource == mc && target.value.name == profileName ==>
              var v := old(mc.GetColorModeValue(modeName)).value;
              && (0 <= v < Ddc.PresetOffset ==> dcSent.Some?)
              && (v >= Ddc.PresetOffset ==> cpSent.Some?)
  {
    target, dcSent, cpSent := None, None, None;
    if mc == null {
      return;
    }
    var value := mc.GetColorModeValue(modeName);
    if value.None? {
      return;
    }
    StoreEdit(mc, profileName, value.value);
    if pm != null && ActiveName(pm.activeProfile) == profileName {
      var p := pm.activeProfile.GetOr(cfg.defaultProfile);
      target := Some(p);
      dcSent, cpSent := pm.ApplyProfile(p, true);
      if pm.colorSource == mc && p.name == profileName {
        if 0 <= value.value < Ddc.PresetOffset {
          ForcedModeIsSent(p, mc.profileColorModes, mc.profileColorPresets, old(ddc.vcpCache), ddc.vcpCache, dcSent, cpSent);
        } else if value.value >= Ddc.PresetOffset {
          ForcedPresetIsSent(p, mc.profileColorModes, mc.profileColorPresets, old(ddc.vcpCache), ddc.vcpCache, dcSent, cpSent);
        }
      }
    }
  }

  // Coalescing of slider writes (`_on_brightness_change` and the other handlers).

  /** The setting a handler writes; the key of `_pending_commands` is (display, setting). */
  datatype Feature = Brightness | Contrast | Sharpness | Mode | RedGain | GreenGain | BlueGain

  /** Brightness, contrast and sharpness check once more for a newer value after writing. */
  predicate Rechecks(f: Feature) {
    f.Brightness? || f.Contrast? || f.Sharpness?
  }

  predicate IsGain(f: Feature) {
    f.RedGain? || f.GreenGain? || f.BlueGain?
  }

  /**
   * The (code, value) the channel is asked to write for the latest value
   * `v` of a setting: the clamped setters for brightness, contrast and
   * sharpness (up to the monitor's sharpness maximum), the combined-value
   * decoding for the colour mode, and the gain codes clamped to 0..100.
   */
  function ChannelCall(f: Feature, v: int, sharpnessMax: int): (int, int) {
    match f
    case Brightness => (Ddc.VcpBrightness, Ddc.Clamp(0, 100, v))
    case Contrast => (Ddc.VcpContrast, Ddc.Clamp(0, 100, v))
    case Sharpness => (Ddc.VcpSharpness, Ddc.Clamp(0, sharpnessMax, v))
    case Mode => Ddc.ColorTarget(v)
    case RedGain => (Ddc.VcpRedGain, Ddc.Clamp(0, 100, v))
    case GreenGain => (Ddc.VcpGreenGain, Ddc.Clamp(0, 100, v))
    case BlueGain => (Ddc.VcpBlueGain, Ddc.Clamp(0, 100, v))
  }

  /** A write handed to the channel of display `display`. */
  datatype ChannelWrite = ChannelWrite(display: int, code: int, value: int)

  /**
   * The channels the writers can reach: the displays with their own
   * controller, the display of the fallback controller `self.ddc` (if
   * any), and the sharpness maximum of each monitor configuration.
   */
  datatype Wiring = Wiring(channels: set<int>, fallback: Option<int>, sharpnessMax: map<int, int>)

  /** `display_num`, else the fallback controller's display, else 1. */
  function DisplayOf(w: Wiring, display: Option<int>): int {
    if display.Some? then display.value else w.fallback.GetOr(1)
  }

  /** `self.ddc_controllers.get(display_num, self.ddc)`: the display whose channel is used. */
  function Target(w: Wiring, display: int): Option<int> {
    if display in w.channels then Some(display) else w.fallback
  }

  function SharpnessMax(w: Wiring, display: int): int {
    if display in w.sharpnessMax then w.sharpnessMax[display] else 100
  }

  /**
   * Where a writer thread is: waiting to start (with the value it was
   * started for), after its first write (with the channel and the value
   * sent), or after its one re-check, about to clear the pending flag.
   */
  datatype Phase = Idle | Queued(requested: int) | Written(target: int, sent: int) | Finishing

  type Key = (int, Feature)

  /** The latest values, the pending flags, the writer threads and the writes sent so far. */
  datatype CState = CState(latest: map<Key, int>, pending: map<Key, bool>, phase: map<Key, Phase>, writes: seq<ChannelWrite>)

  function PhaseOf(st: CState, k: Key): Phase {
    if k in st.phase then st.phase[k] else Idle
  }

  /** `self._pending_commands.get(key)`. */
  predicate Busy(st: CState, k: Key) {
    k in st.pending && st.pending[k]
  }

  /** A writer thread runs exactly while its key is pending, and a running writer's key has a latest value. */
  ghost predicate Valid(st: CState) {
    forall k :: (Busy(st, k) <==> PhaseOf(st, k) != Idle) && (PhaseOf(st, k) != Idle ==> k in st.latest)
  }

  function WriteFor(w: Wiring, t: int, k: Key, v: int): ChannelWrite {
    var c := ChannelCall(k.1, v, SharpnessMax(w, k.0));
    ChannelWrite(t, c.0, c.1)
  }

  /** A handler call: the value is recorded, and a writer is started unless one is pending. */
  function RequestStep(st: CState, k: Key, v: int): CState {
    var st1 := st.(latest := st.latest[k := v]);
    if Busy(st, k) then st1
    else st1.(pending := st.pending[k := true], phase := st.phase[k := Queued(v)])
  }

  /** The writer's `finally`: the key is free again. */
  function Release(st: CState, k: Key): CState {
    st.(pending := st.pending[k := false], phase := st.phase[k := Idle])
  }

  /**
   * The writer's first step: without a channel it only releases the key;
   * otherwise it writes the latest value, and then either goes on to its
   * re-check or, for the settings without one, to releasing the key.
   */
  function SendStep(w: Wiring, st: CState, k: Key): (r: CState)
    requires PhaseOf(st, k).Queued?
    ensures r.latest == st.latest
    ensures forall j :: j != k ==> PhaseOf(r, j) == PhaseOf(st, j) && Busy(r, j) == Busy(st, j)
    ensures Target(w, k.0).None? ==> r.writes == st.writes && !Busy(r, k) && PhaseOf(r, k) == Idle
    ensures Target(w, k.0).Some? ==>
              Busy(r, k) == Busy(st, k)
              && |r.writes| == |st.writes| + 1 && r.writes[..|st.writes|] == st.writes
              && r.writes[|st.writes|].display == Target(w, k.0).value
              && (k in st.latest ==> r.writes[|st.writes|] == WriteFor(w, Target(w, k.0).value, k, st.latest[k]))
              && (Rechecks(k.1) <==> PhaseOf(r, k).Written?)
              && (!Rechecks(k.1) ==> PhaseOf(r, k) == Finishing)
  {
    var t := Target(w, k.0);
    if t.None? then Release(st, k)
    else
      var v := if k in st.latest then st.latest[k] else PhaseOf(st, k).requested;
      var st1 := st.(writes := st.writes + [WriteFor(w, t.value, k, v)]);
      if Rechecks(k.1) then st1.(phase := st.phase[k := Written(t.value, v)]) else st1.(phase := st.phase[k := Finishing])
  }

  /** The re-check as written: a latest value other than the one sent is written once more, and then the writer finishes. */
  function RecheckStep(w: Wiring, st: CState, k: Key): (r: CState)
    requires PhaseOf(st, k).Written?
    ensures r.latest == st.latest && r.pending == st.pending && PhaseOf(r, k) == Finishing
    ensures forall j :: j != k ==> PhaseOf(r, j) == PhaseOf(st, j)
    ensures k in st.latest && st.latest[k] != PhaseOf(st, k).sent ==>
              r.writes == st.writes + [WriteFor(w, PhaseOf(st, k).target, k, st.latest[k])]
    ensures !(k in st.latest && st.latest[k] != PhaseOf(st, k).sent) ==> r.writes == st.writes
  {
    var ph := PhaseOf(st, k);
    var st1 := st.(phase := st.phase[k := Finishing]);
    if k in st.latest && st.latest[k] != ph.sent then st1.(writes := st.writes + [WriteFor(w, ph.target, k, st.latest[k])])
    else st1
  }

  function FinishStep(st: CState, k: Key): (r: CState)
    requires PhaseOf(st, k).Finishing?
    ensures r.latest == st.latest && r.writes == st.writes && !Busy(r, k) && PhaseOf(r, k) == Idle
    ensures forall j :: j != k ==> PhaseOf(r, j) == PhaseOf(st, j) && Busy(r, j) == Busy(st, j)
  {
    Release(st, k)
  }

  /**
   * A request always records the value as the latest and writes nothing
   * itself; while a writer is pending for the key that is all it does,
   * otherwise it marks the key pending and starts a writer for the value.
   */
  lemma RequestRecordsLatest(st: CState, k: Key, v: int)
    ensures var r := RequestStep(st, k, v);
            && r.latest == st.latest[k := v] && r.writes == st.writes && Busy(r, k)
            && (Busy(st, k) ==> r.pending == st.pending && r.phase == st.phase)
            && (!Busy(st, k) ==>
                  PhaseOf(r, k) == Queued(v)
                  && forall j :: j != k ==> Busy(r, j) == Busy(st, j) && PhaseOf(r, j) == PhaseOf(st, j))
  {
  }

  lemma RequestKeepsValid(st: CState, k: Key, v: int)
    requires Valid(st)
    ensures Valid(RequestStep(st, k, v))
  {
    var r := RequestStep(st, k, v);
    forall j
      ensures (Busy(r, j) <==> PhaseOf(r, j) != Idle) && (PhaseOf(r, j) != Idle ==> j in r.latest)
    {
      assert j != k ==> (Busy(r, j) == Busy(st, j) && PhaseOf(r, j) == PhaseOf(st, j));
    }
  }

  lemma SendKeepsValid(w: Wiring, st: CState, k: Key)
    requires Valid(st) && PhaseOf(st, k).Queued?
    ensures Valid(SendStep(w, st, k))
  {
    var r := SendStep(w, st, k);
    forall j
      ensures (Busy(r, j) <==> PhaseOf(r, j) != Idle) && (PhaseOf(r, j) != Idle ==> j in r.latest)
    {
      assert j != k ==> (Busy(r, j) == Busy(st, j) && PhaseOf(r, j) == PhaseOf(st, j));
    }
  }

  lemma RecheckKeepsValid(w: Wiring, st: CState, k: Key)
    requires Valid(st) && PhaseOf(st, k).Written?
    ensures Valid(RecheckStep(w, st, k))
  {
    var r := RecheckStep(w, st, k);
    forall j
      ensures (Busy(r, j) <==> PhaseOf(r, j) != Idle) && (PhaseOf(r, j) != Idle ==> j in r.latest)
    {
      assert j != k ==> (Busy(r, j) == Busy(st, j) && PhaseOf(r, j) == PhaseOf(st, j));
    }
  }

  lemma FinishKeepsValid(st: CState, k: Key)
    requires Valid(st) && PhaseOf(st, k).Finishing?
    ensures Valid(FinishStep(st, k))
  {
    var r := FinishStep(st, k);
    forall j
      ensures (Busy(r, j) <==> PhaseOf(r, j) != Idle) && (PhaseOf(r, j) != Idle ==> j in r.latest)
    {
      assert j != k ==> (Busy(r, j) == Busy(st, j) && PhaseOf(r, j) == PhaseOf(st, j));
    }
  }

  /**
   * One writer run of brightness, contrast or sharpness with a value
   * requested while it writes: the first value is written, then the newer
   * one once, and the key is free again holding the newer value.
   */
  lemma WriterSendsLatestOnce(w: Wiring, st: CState, k: Key, v1: int, v2: int)
    requires Valid(st) && !Busy(st, k) && Rechecks(k.1) && Target(w, k.0).Some?
    ensures var s1 := RequestStep(st, k, v1);
            var s2 := SendStep(w, s1, k);
            var s3 := RequestStep(s2, k, v2);
            var s4 := RecheckStep(w, s3, k);
            var s5 := FinishStep(s4, k);
            var t := Target(w, k.0).value;
            && s5.writes == st.writes + [WriteFor(w, t, k, v1)] + (if v2 != v1 then [WriteFor(w, t, k, v2)] else [])
            && !Busy(s5, k) && s5.latest[k] == v2 && Valid(s5)
  {
    var s1 := RequestStep(st, k, v1);
    RequestKeepsValid(st, k, v1);
    var s2 := SendStep(w, s1, k);
    SendKeepsValid(w, s1, k);
    var s3 := RequestStep(s2, k, v2);
    RequestKeepsValid(s2, k, v2);
    var s4 := RecheckStep(w, s3, k);
    RecheckKeepsValid(w, s3, k);
    FinishKeepsValid(s4, k);
  }

  /**
   * As written, the re-check happens once: a value requested after it, while the
   * writer is still finishing, is recorded but never written, and once
   * the writer is done nothing is pending to write it.
   */
  lemma LateRequestIsNotWritten(w: Wiring, st: CState, k: Key, v1: int, v2: int, v3: int)
    requires Valid(st) && !Busy(st, k) && Rechecks(k.1) && Target(w, k.0).Some?
    ensures var s1 := RequestStep(st, k, v1);
            var s2 := SendStep(w, s1, k);
            var s3 := RequestStep(s2, k, v2);
            var s4 := RecheckStep(w, s3, k);
            var s5 := RequestStep(s4, k, v3);
            var s6 := FinishStep(s5, k);
            var t := Target(w, k.0).value;
            && s6.writes == st.writes + [WriteFor(w, t, k, v1)] + (if v2 != v1 then [WriteFor(w, t, k, v2)] else [])
            && !Busy(s6, k) && PhaseOf(s6, k) == Idle && s6.latest[k] == v3
  {
    var s1 := RequestStep(st, k, v1);
    RequestKeepsValid(st, k, v1);
    var s2 := SendStep(w, s1, k);
  }

  /**
   * The re-check as evidently intended: the writer re-checks after every
   * write and writes the latest value again until the value it last sent
   * is the latest; only then is the key freed, in the same step.
   */
  function RecheckUntilLatest(w: Wiring, st: CState, k: Key): (r: CState)
    requires PhaseOf(st, k).Written?
    ensures r.latest == st.latest
    ensures forall j :: j != k ==> PhaseOf(r, j) == PhaseOf(st, j) && Busy(r, j) == Busy(st, j)
    ensures k in st.latest && st.latest[k] != PhaseOf(st, k).sent ==>
              r.writes == st.writes + [WriteFor(w, PhaseOf(st, k).target, k, st.latest[k])]
              && PhaseOf(r, k) == Written(PhaseOf(st, k).target, st.latest[k]) && r.pending == st.pending
    ensures !(k in st.latest && st.latest[k] != PhaseOf(st, k).sent) ==>
              r.writes == st.writes && !Busy(r, k) && PhaseOf(r, k) == Idle
  {
    var ph := PhaseOf(st, k);
    if k in st.latest && st.latest[k] != ph.sent then
      st.(writes := st.writes + [WriteFor(w, ph.target, k, st.latest[k])],
          phase := st.phase[k := Written(ph.target, st.latest[k])])
    else Release(st, k)
  }

  lemma RecheckUntilLatestKeepsValid(w: Wiring, st: CState, k: Key)
    requires Valid(st) && PhaseOf(st, k).Written?
    ensures Valid(RecheckUntilLatest(w, st, k))
  {
    var r := RecheckUntilLatest(w, st, k);
    forall j
      ensures (Busy(r, j) <==> PhaseOf(r, j) != Idle) && (PhaseOf(r, j) != Idle ==> j in r.latest)
    {
      assert j != k ==> (Busy(r, j) == Busy(st, j) && PhaseOf(r, j) == PhaseOf(st, j));
    }
  }

  /**
   * With the repeated re-check a key is freed exactly when the value last
   * sent is the latest one, and a re-send always carries the latest value.
   */
  lemma FreedOnlyWhenLatestSent(w: Wiring, st: CState, k: Key)
    requires Valid(st) && PhaseOf(st, k).Written?
    ensures var r := RecheckUntilLatest(w, st, k);
            var ph := PhaseOf(st, k);
            && k in st.latest
            && (!Busy(r, k) <==> st.latest[k] == ph.sent)
            && (!Busy(r, k) ==> r.writes == st.writes && PhaseOf(r, k) == Idle)
            && (Busy(r, k) ==>
                  r.writes == st.writes + [WriteFor(w, ph.target, k, st.latest[k])]
                  && PhaseOf(r, k) == Written(ph.target, st.latest[k]))
  {
    assert PhaseOf(st, k) != Idle;
  }

  /**
   * The scenario of `LateRequestIsNotWritten` with the repeated re-check:
   * the value requested during the re-send is written next, and the key is
   * freed only after that.
   */
  lemma LateRequestIsWritten(w: Wiring, st: CState, k: Key, v1: int, v2: int, v3: int)
    requires Valid(st) && !Busy(st, k) && Rechecks(k.1) && Target(w, k.0).Some? && v1 != v2 && v2 != v3
    ensures var s1 := RequestStep(st, k, v1);
            var s2 := SendStep(w, s1, k);
            var s3 := RequestStep(s2, k, v2);
            var s4 := RecheckUntilLatest(w, s3, k);
            var s5 := RequestStep(s4, k, v3);
            var s6 := RecheckUntilLatest(w, s5, k);
            var s7 := RecheckUntilLatest(w, s6, k);
            var t := Target(w, k.0).value;
            && s7.writes == st.writes + [WriteFor(w, t, k, v1), WriteFor(w, t, k, v2), WriteFor(w, t, k, v3)]
            && !Busy(s7, k) && s7.latest[k] == v3 && Valid(s7)
  {
    var s1 := RequestStep(st, k, v1);
    RequestKeepsValid(st, k, v1);
    var s2 := SendStep(w, s1, k);
    SendKeepsValid(w, s1, k);
    var s3 := RequestStep(s2, k, v2);
    RequestKeepsValid(s2, k, v2);
    var s4 := RecheckUntilLatest(w, s3, k);
    RecheckUntilLatestKeepsValid(w, s3, k);
    var s5 := RequestStep(s4, k, v3);
    RequestKeepsValid(s4, k, v3);
    var s6 := RecheckUntilLatest(w, s5, k);
    RecheckUntilLatestKeepsValid(w, s5, k);
    RecheckUntilLatestKeepsValid(w, s6, k);
  }

  /**
   * The colour-mode and gain writers write once: a value requested while
   * the write runs is recorded and never written by that writer.
   */
  lemma OneShotWritesOnce(w: Wiring, st: CState, k: Key, v1: int, v2: int)
    requires Valid(st) && !Busy(st, k) && !Rechecks(k.1) && Target(w, k.0).Some?
    ensures var s1 := RequestStep(st, k, v1);
            var s2 := SendStep(w, s1, k);
            var s3 := RequestStep(s2, k, v2);
            var s4 := FinishStep(s3, k);
            && s4.writes == st.writes + [WriteFor(w, Target(w, k.0).value, k, v1)]
            && !Busy(s4, k) && s4.latest[k] == v2
  {
    var s1 := RequestStep(st, k, v1);
    RequestKeepsValid(st, k, v1);
  }

  /** Without a channel a writer writes nothing and frees its key. */
  lemma NoChannelNoWrite(w: Wiring, st: CState, k: Key, v: int)
    requires Valid(st) && !Busy(st, k) && Target(w, k.0).None?
    ensures var s2 := SendStep(w, RequestStep(st, k, v), k);
            s2.writes == st.writes && !Busy(s2, k) && PhaseOf(s2, k) == Idle
  {
  }

  /**
   * The gain writers as written call `set_red_gain`, `set_green_gain` and
   * `set_blue_gain`, which the channel does not have: the call raises, the
   * `finally` frees the key, and nothing is written.
   */
  function SendStepAsWritten(w: Wiring, st: CState, k: Key): (r: CState)
    requires PhaseOf(st, k).Queued?
    ensures IsGain(k.1) ==> r.writes == st.writes && r.latest == st.latest && !Busy(r, k) && PhaseOf(r, k) == Idle
    ensures !IsGain(k.1) ==> r == SendStep(w, st, k)
  {
    if IsGain(k.1) then Release(st, k) else SendStep(w, st, k)
  }

  /** As written, a gain change never reaches the monitor, whatever the channel. */
  lemma GainChangeLostAsWritten(w: Wiring, st: CState, k: Key, v: int)
    requires Valid(st) && !Busy(st, k) && IsGain(k.1)
    ensures var s2 := SendStepAsWritten(w, RequestStep(st, k, v), k);
            s2.writes == st.writes && !Busy(s2, k) && s2.latest[k] == v
  {
  }

  /** With the gain codes written like the other settings, a gain change reaches the channel, clamped to 0..100. */
  lemma GainChangeWritten(w: Wiring, st: CState, k: Key, v: int)
    requires Valid(st) && !Busy(st, k) && IsGain(k.1) && Target(w, k.0).Some?
    ensures var s2 := SendStep(w, RequestStep(st, k, v), k);
            var code := if k.1.RedGain? then Ddc.VcpRedGain else if k.1.GreenGain? then Ddc.VcpGreenGain else Ddc.VcpBlueGain;
            s2.writes == st.writes + [ChannelWrite(Target(w, k.0).value, code, Ddc.Clamp(0, 100, v))]
  {
  }

  /**
   * The window's change coalescers: the latest value per display and
   * setting, the pending flags, where each writer thread is, and the
   * writes handed to the channels. Each writer thread's steps are methods
   * called by whoever schedules the threads. The gain writers write their
   * codes and the re-check repeats until the latest value is sent: the two
   * corrections of the writers as written (`SendStepAsWritten`, `RecheckStep`).
   */
  class Coalescer {
    const wiring: Wiring
    var latest: map<Key, int>
    var pending: map<Key, bool>
    var phase: map<Key, Phase>
    var writes: seq<ChannelWrite>

    function State(): CState
      reads this
    {
      CState(latest, pending, phase, writes)
    }

    constructor(w: Wiring)
      ensures wiring == w && State() == CState(map[], map[], map[], [])
      ensures Valid(State())
    {
      wiring := w;
      latest := map[];
      pending := map[];
      phase := map[];
      writes := [];
    }

    /** `_on_<setting>_change(value, display_num)`; `started` says whether a writer thread was started. */
    method Request(display: Option<int>, f: Feature, value: int) returns (started: bool)
      modifies this
      ensures var k := (DisplayOf(wiring, display), f);
              && started == !Busy(old(State()), k)
              && State() == RequestStep(old(State()), k, value)
    {
      var k := (DisplayOf(wiring, display), f);
      latest := latest[k := value];
      if k in pending && pending[k] {
        return false;
      }
      pending := pending[k := true];
      phase := phase[k := Queued(value)];
      started := true;
    }

    /** The writer's own release of its key, in its `finally`. */
    method Free(k: Key)
      modifies this
      ensures State() == Release(old(State()), k)
    {
      pending := pending[k := false];
      phase := phase[k := Idle];
    }

    /** The writer thread's first step: look up the channel and write the latest value. */
    method WriterSend(k: Key)
      requires PhaseOf(State(), k).Queued?
      modifies this
      ensures State() == SendStep(wiring, old(State()), k)
    {
      var t := Target(wiring, k.0);
      if t.None? {
        Free(k);
        return;
      }
      var v := if k in latest then latest[k] else phase[k].requested;
      writes := writes + [WriteFor(wiring, t.value, k, v)];
      if Rechecks(k.1) {
        phase := phase[k := Written(t.value, v)];
      } else {
        phase := phase[k := Finishing];
      }
    }

    /**
     * The writer thread's re-check after a write, repeated until the value
     * sent is the latest (the corrected re-check, see `RecheckUntilLatest`).
     */
    method WriterRecheck(k: Key)
      requires PhaseOf(State(), k).Written?
      modifies this
      ensures State() == RecheckUntilLatest(wiring, old(State()), k)
    {
      var ph := phase[k];
      if k in latest && latest[k] != ph.sent {
        writes := writes + [WriteFor(wiring, ph.target, k, latest[k])];
        phase := phase[k := Written(ph.target, latest[k])];
      } else {
        Free(k);
      }
    }

    /** The writer thread's `finally`. */
    method WriterFinish(k: Key)
      requires PhaseOf(State(), k).Finishing?
      modifies this
      ensures State() == FinishStep(old(State()), k)
    {
      Free(k);
    }
  }
}

