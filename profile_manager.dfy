/**
 * monitor_control/profile_manager.py: class `ProfileManager`, which
 * attributes focused windows to its monitor, picks the profile for a
 * window, writes the profile's colour settings through the command
 * channel, and turns screen-analysis suggestions into brightness and
 * contrast writes.
 *
 * The callbacks the manager calls out to are logs of what they receive;
 * the two colour lookups installed by the application are functions of the
 * profile name.  A write the source hands to a background thread is
 * recorded as a dispatched request.
 */
module Profiles {
  import opened Wrappers
  import Text
  import Glob
  import Ddc
  import DdcChannel
  import WindowMonitor
  import Screen
  import Config

  type WindowInfo = WindowMonitor.WindowInfo

  const NoGeometry := WindowMonitor.Rect(0, 0, 0, 0)

  /**
   * `_is_window_on_this_monitor`: without a monitor rectangle every window
   * counts; a window without geometry belongs to display 1 only; otherwise
   * the window's centre decides.
   */
  function OnMonitor(geometry: Option<Ddc.MonitorGeometry>, display: int, w: WindowInfo): bool {
    if geometry.None? then true
    else if w.geometry == NoGeometry then display == 1
    else Ddc.ContainsWindow(geometry.value, w.geometry.x, w.geometry.y, w.geometry.width, w.geometry.height)
  }

  /**
   * Managers of distinct displays whose monitors do not overlap never both
   * claim a window, whether or not it has geometry; with no geometry only
   * display 1 claims it.
   */
  lemma AtMostOneManagerClaims(gs: seq<Ddc.MonitorGeometry>, displays: seq<int>, w: WindowInfo)
    requires |gs| == |displays|
    requires forall p, q :: 0 <= p < q < |gs| ==> Ddc.Disjoint(gs[p], gs[q])
    requires forall p, q :: 0 <= p < q < |displays| ==> displays[p] != displays[q]
    ensures forall p, q :: 0 <= p < q < |gs| && OnMonitor(Some(gs[p]), displays[p], w) ==>
              !OnMonitor(Some(gs[q]), displays[q], w)
    ensures w.geometry == NoGeometry ==>
              forall p :: 0 <= p < |gs| ==> (OnMonitor(Some(gs[p]), displays[p], w) <==> displays[p] == 1)
  {
    Ddc.CentreOnAtMostOneMonitor(gs, w.geometry.x, w.geometry.y, w.geometry.width, w.geometry.height);
  }

  /** The application's own window, whose focus never switches profiles. */
  predicate IsOwnWindow(w: WindowInfo) {
    Text.Contains(Text.Lower(w.windowClass), "monitor-control") || Text.Contains(w.title, "Monitor Control")
  }

  /** Some class pattern of the list matches the window. */
  predicate AnyClassPattern(w: WindowInfo, patterns: seq<string>) {
    exists k :: 0 <= k < |patterns| && WindowMonitor.MatchesPattern(w, patterns[k])
  }

  /** Some title pattern of the list matches the lowercased title. */
  predicate AnyTitlePattern(w: WindowInfo, patterns: seq<string>) {
    exists k :: 0 <= k < |patterns| && Glob.MatchesIgnoringCase(w.title, patterns[k])
  }

  predicate Selects(p: Config.Profile, w: WindowInfo) {
    AnyClassPattern(w, p.rules.windowClass) || AnyTitlePattern(w, p.rules.windowTitle)
  }

  /** The first profile of the list that selects the window, `|ps|` when none does. */
  function FirstMatch(ps: seq<Config.Profile>, w: WindowInfo): (i: nat)
    ensures i <= |ps|
    ensures forall j :: 0 <= j < i ==> !Selects(ps[j], w)
    ensures i < |ps| ==> Selects(ps[i], w)
  {
    if ps == [] || Selects(ps[0], w) then 0 else 1 + FirstMatch(ps[1..], w)
  }

  /** `_find_matching_profile`: the first selecting profile, else the default profile. */
  function MatchingProfile(ps: seq<Config.Profile>, d: Config.Profile, w: WindowInfo): Config.Profile {
    var i := FirstMatch(ps, w);
    if i < |ps| then ps[i] else d
  }

  method MatchesAnyClass(w: WindowInfo, patterns: seq<string>) returns (b: bool)
    ensures b == AnyClassPattern(w, patterns)
  {
    var k := 0;
    while k < |patterns|
      invariant 0 <= k <= |patterns|
      invariant forall j :: 0 <= j < k ==> !WindowMonitor.MatchesPattern(w, patterns[j])
    {
      if WindowMonitor.MatchesPattern(w, patterns[k]) {
        return true;
      }
      k := k + 1;
    }
    b := false;
  }

  method MatchesAnyTitle(w: WindowInfo, patterns: seq<string>) returns (b: bool)
    ensures b == AnyTitlePattern(w, patterns)
  {
    var k := 0;
    while k < |patterns|
      invariant 0 <= k <= |patterns|
      invariant forall j :: 0 <= j < k ==> !Glob.MatchesIgnoringCase(w.title, patterns[j])
    {
      if Glob.MatchesIgnoringCase(w.title, patterns[k]) {
        return true;
      }
      k := k + 1;
    }
    b := false;
  }

  /** The loops of `_find_matching_profile`. */
  method FindMatchingProfile(ps: seq<Config.Profile>, d: Config.Profile, w: WindowInfo) returns (p: Config.Profile)
    ensures p == MatchingProfile(ps, d, w)
  {
    var i := 0;
    while i < |ps|
      invariant 0 <= i <= |ps|
      invariant forall j :: 0 <= j < i ==> !Selects(ps[j], w)
    {
      var byClass := MatchesAnyClass(w, ps[i].rules.windowClass);
      if byClass {
        return ps[i];
      }
      var byTitle := MatchesAnyTitle(w, ps[i].rules.windowTitle);
      if byTitle {
        return ps[i];
      }
      i := i + 1;
    }
    p := d;
  }

  // The colour part of `_apply_profile`.

  /** The values to write to 0xDC and 0x14. */
  datatype ColorWrite = ColorWrite(displayMode: Option<int>, colorPreset: Option<int>)

  /**
   * A combined value at or above 0x1000 is a 0x14 preset (less the
   * offset), below it a 0xDC mode; a separately stored preset wins for 0x14.
   */
  function ColorValues(combined: Option<int>, separate: Option<int>): (c: ColorWrite)
    ensures separate.Some? ==> c.colorPreset == separate
    ensures combined.None? ==> c.displayMode.None? && c.colorPreset == separate
    ensures combined.Some? && combined.value >= Ddc.PresetOffset ==>
              c.displayMode.None? && (separate.None? ==> c.colorPreset == Some(combined.value - Ddc.PresetOffset))
    ensures combined.Some? && combined.value < Ddc.PresetOffset ==>
              c.displayMode == combined && c.colorPreset == separate
  {
    match combined
    case None => ColorWrite(None, separate)
    case Some(v) =>
      if v >= Ddc.PresetOffset then ColorWrite(None, if separate.Some? then separate else Some(v - Ddc.PresetOffset))
      else ColorWrite(Some(v), separate)
  }

  /**
   * The decoding agrees with the channel's `set_color_mode` and inverts
   * the combined values of the capability list: a colour mode offered as
   * (code, value) is written back to that code with that value.
   */
  lemma ColorValuesInvertCombinedValue(code: int, value: int)
    requires code == Ddc.VcpColorPreset || code == Ddc.VcpColorTemp
    requires 0 <= value < 256
    ensures var c := ColorValues(Some(Ddc.CombinedValue(code, value)), None);
            && (code == Ddc.VcpColorPreset ==> c == ColorWrite(Some(value), None))
            && (code == Ddc.VcpColorTemp ==> c == ColorWrite(None, Some(value)))
            && Ddc.ColorTarget(Ddc.CombinedValue(code, value)) == (code, value)
  {
    Ddc.ColorTargetInvertsCombinedValue(code, value);
  }

  /** The combined value: the monitor's entry for the profile, else the profile's own preset. */
  function CombinedFor(p: Config.Profile, modes: map<string, int>): Option<int> {
    if p.name in modes then Some(modes[p.name]) else p.settings.colorPreset
  }

  /** The separately stored 0x14 preset. */
  function SeparateFor(p: Config.Profile, presets: map<string, int>): Option<int> {
    if p.name in presets then Some(presets[p.name]) else None
  }

  /** A colour code is written when it has a non-negative value and `force`, no cache entry or a different one. */
  predicate NeedsWrite(cache: map<int, int>, code: int, v: Option<int>, force: bool) {
    v.Some? && v.value >= 0 && (force || code !in cache || cache[code] != v.value)
  }

  /** The channel cache after a write that was sent (`Some(ok)`) or not (`None`). */
  function AfterWrite(cache: map<int, int>, code: int, v: Option<int>, sent: Option<bool>): map<int, int> {
    if sent.Some? && v.Some? then DdcChannel.CacheAfterSend(cache, code, v.value, sent.value) else cache
  }

  /** A write to one code leaves the decision for another code as it was. */
  lemma OtherCodeUnaffected(cache: map<int, int>, code: int, v: Option<int>, sent: Option<bool>,
                            other: int, w: Option<int>, force: bool)
    requires other != code
    ensures NeedsWrite(AfterWrite(cache, code, v, sent), other, w, force) == NeedsWrite(cache, other, w, force)
  {
  }

  /** Placeholders (-1) and other negative values are never written, forced or not. */
  lemma NegativeNeverWritten(cache: map<int, int>, code: int, v: int, force: bool)
    requires v < 0
    ensures !NeedsWrite(cache, code, Some(v), force)
  {
  }

  /**
   * The two colour writes: 0xDC first, then 0x14, each sent when
   * `NeedsWrite` says so against the cache as it was before either.
   */
  predicate ColorsWritten(c: ColorWrite, force: bool, before: map<int, int>, after: map<int, int>,
                          dcSent: Option<bool>, cpSent: Option<bool>)
  {
    && (dcSent.Some? <==> NeedsWrite(before, Ddc.VcpColorPreset, c.displayMode, force))
    && (cpSent.Some? <==> NeedsWrite(before, Ddc.VcpColorTemp, c.colorPreset, force))
    && after == AfterWrite(AfterWrite(before, Ddc.VcpColorPreset, c.displayMode, dcSent),
                           Ddc.VcpColorTemp, c.colorPreset, cpSent)
  }

  /**
   * Once both colour writes have gone through (or were not needed),
   * applying the same colours again without force sends nothing and
   * leaves the cache as it is: the cache suppresses the repeat.
   */
  lemma ReapplyIsSuppressed(c: ColorWrite, force: bool, before: map<int, int>, mid: map<int, int>, after: map<int, int>,
                            dc1: Option<bool>, cp1: Option<bool>, dc2: Option<bool>, cp2: Option<bool>)
    requires ColorsWritten(c, force, before, mid, dc1, cp1)
    requires dc1 != Some(false) && cp1 != Some(false)
    requires ColorsWritten(c, false, mid, after, dc2, cp2)
    ensures dc2.None? && cp2.None? && after == mid
  {
    var half := AfterWrite(before, Ddc.VcpColorPreset, c.displayMode, dc1);
    OtherCodeUnaffected(before, Ddc.VcpColorPreset, c.displayMode, dc1, Ddc.VcpColorTemp, c.colorPreset, force);
    OtherCodeUnaffected(half, Ddc.VcpColorTemp, c.colorPreset, cp1, Ddc.VcpColorPreset, c.displayMode, false);
  }

  // The adaptive path of `_on_screen_analysis`.

  /** A write handed to a background thread. */
  datatype Dispatch = SendBrightness(brightness: int) | SendContrast(contrast: int)

  /** The dictionary passed to the settings callbacks. */
  datatype SettingsChange = SettingsChange(
    brightness: Option<int>, contrast: Option<int>, mean: real, darkRatio: real, brightRatio: real)

  /** `_last_sent_brightness`, `_last_sent_contrast`. */
  datatype LastSent = LastSent(brightness: Option<int>, contrast: Option<int>)

  datatype AdaptiveResult = AdaptiveResult(last: LastSent, dispatched: seq<Dispatch>, change: SettingsChange)

  /** One analysis: send each enabled suggestion that differs from the last one sent. */
  function AdaptiveStep(autoBrightness: bool, autoContrast: bool, last: LastSent, a: Screen.ScreenAnalysis): AdaptiveResult {
    var b := if autoBrightness && last.brightness != Some(a.suggestedBrightness) then Some(a.suggestedBrightness) else None;
    var c := if autoContrast && last.contrast != Some(a.suggestedContrast) then Some(a.suggestedContrast) else None;
    AdaptiveResult(
      LastSent(if b.Some? then b else last.brightness, if c.Some? then c else last.contrast),
      (if b.Some? then [SendBrightness(b.value)] else []) + (if c.Some? then [SendContrast(c.value)] else []),
      SettingsChange(b, c, a.meanBrightness, a.darkRatio, a.brightRatio))
  }

  /**
   * A brightness write is dispatched exactly when auto brightness is on and
   * the suggestion differs from the last value sent, and the last value
   * sent is then the suggestion; contrast likewise.  The payload always
   * carries the screen statistics.
   */
  lemma AdaptiveStepSendsOnChange(autoBrightness: bool, autoContrast: bool, last: LastSent, a: Screen.ScreenAnalysis)
    ensures var r := AdaptiveStep(autoBrightness, autoContrast, last, a);
            && (SendBrightness(a.suggestedBrightness) in r.dispatched <==>
                  autoBrightness && last.brightness != Some(a.suggestedBrightness))
            && (SendContrast(a.suggestedContrast) in r.dispatched <==>
                  autoContrast && last.contrast != Some(a.suggestedContrast))
            && (forall d :: d in r.dispatched ==> d == SendBrightness(a.suggestedBrightness) || d == SendContrast(a.suggestedContrast))
            && r.last.brightness == (if autoBrightness then Some(a.suggestedBrightness) else last.brightness)
            && r.last.contrast == (if autoContrast then Some(a.suggestedContrast) else last.contrast)
            && (r.change.mean, r.change.darkRatio, r.change.brightRatio) == (a.meanBrightness, a.darkRatio, a.brightRatio)
  {
  }

  /** The brightness values of a dispatch log, in order. */
  function Brightnesses(ds: seq<Dispatch>): seq<int> {
    if ds == [] then []
    else Brightnesses(ds[..|ds| - 1]) + (if ds[|ds| - 1].SendBrightness? then [ds[|ds| - 1].brightness] else [])
  }

  lemma {:induction false} BrightnessesAppend(ds: seq<Dispatch>, es: seq<Dispatch>)
    ensures Brightnesses(ds + es) == Brightnesses(ds) + Brightnesses(es)
    decreases |es|
  {
    if es == [] {
      assert ds + es == ds;
    } else {
      assert (ds + es)[..|ds + es| - 1] == ds + es[..|es| - 1];
      BrightnessesAppend(ds, es[..|es| - 1]);
    }
  }

  /** What a run of analyses leaves: the last values sent and every write dispatched. */
  datatype RunState = RunState(last: LastSent, dispatched: seq<Dispatch>)

  /** A run of analyses with fixed auto flags. */
  function AdaptiveRun(autoBrightness: bool, autoContrast: bool, last: LastSent, analyses: seq<Screen.ScreenAnalysis>): RunState {
    if analyses == [] then RunState(last, [])
    else
      var st := AdaptiveRun(autoBrightness, autoContrast, last, analyses[..|analyses| - 1]);
      var r := AdaptiveStep(autoBrightness, autoContrast, st.last, analyses[|analyses| - 1]);
      RunState(r.last, st.dispatched + r.dispatched)
  }

  predicate NoRepeats(bs: seq<int>) {
    forall i :: 0 <= i < |bs| - 1 ==> bs[i] != bs[i + 1]
  }

  /** The brightness a single step sends, if any. */
  lemma StepBrightness(autoBrightness: bool, autoContrast: bool, last: LastSent, a: Screen.ScreenAnalysis)
    ensures Brightnesses(AdaptiveStep(autoBrightness, autoContrast, last, a).dispatched)
            == if autoBrightness && last.brightness != Some(a.suggestedBrightness) then [a.suggestedBrightness] else []
  {
    var ev := if autoBrightness && last.brightness != Some(a.suggestedBrightness) then [SendBrightness(a.suggestedBrightness)] else [];
    var ec := if autoContrast && last.contrast != Some(a.suggestedContrast) then [SendContrast(a.suggestedContrast)] else [];
    BrightnessesAppend(ev, ec);
    if ec != [] { assert ec[..0] == []; }
    if ev != [] { assert ev[..0] == []; }
  }

  /** Appending a value different from the current last one keeps a sequence free of repeats. */
  lemma NoRepeatsSnoc(bs: seq<int>, x: int)
    requires NoRepeats(bs)
    requires bs != [] ==> bs[|bs| - 1] != x
    ensures NoRepeats(bs + [x])
  {
    var cs := bs + [x];
    forall i | 0 <= i < |cs| - 1
      ensures cs[i] != cs[i + 1]
    {
      if i + 1 < |bs| {
        assert cs[i] == bs[i] && cs[i + 1] == bs[i + 1];
      } else {
        assert cs[i] == bs[|bs| - 1] && cs[i + 1] == x;
      }
    }
  }

  /**
   * Over any run of analyses the adaptive path never sends the same
   * brightness twice in a row, and the last brightness it sent is the one
   * remembered as last sent.
   */
  lemma {:induction false} AdaptiveRunNeverRepeats(autoBrightness: bool, autoContrast: bool, last: LastSent, analyses: seq<Screen.ScreenAnalysis>)
    ensures var st := AdaptiveRun(autoBrightness, autoContrast, last, analyses);
            var bs := Brightnesses(st.dispatched);
            NoRepeats(bs) && (bs != [] ==> st.last.brightness == Some(bs[|bs| - 1]))
  {
    if analyses != [] {
      var st := AdaptiveRun(autoBrightness, autoContrast, last, analyses[..|analyses| - 1]);
      AdaptiveRunNeverRepeats(autoBrightness, autoContrast, last, analyses[..|analyses| - 1]);
      var a := analyses[|analyses| - 1];
      var r := AdaptiveStep(autoBrightness, autoContrast, st.last, a);
      BrightnessesAppend(st.dispatched, r.dispatched);
      StepBrightness(autoBrightness, autoContrast, st.last, a);
      var bs := Brightnesses(st.dispatched);
      if autoBrightness && st.last.brightness != Some(a.suggestedBrightness) {
        NoRepeatsSnoc(bs, a.suggestedBrightness);
      } else {
        assert bs + [] == bs;
      }
    }
  }

  /** `ProfileManager`. */
  class ProfileManager {
    const config: Config.Config
    const ddc: DdcChannel.DdcController
    /** The display number of the channel. */
    const display: int
    /** `window_monitor`: the active-window tracker whose observer is `_on_window_change`. */
    const windows: WindowMonitor.ActiveWindowTracker
    /** `screen_analyzer`: the one passed in, or the one built from the configuration. */
    const analyzer: Screen.ScreenAnalyzer
    var monitorGeometry: Option<Ddc.MonitorGeometry>
    var activeProfile: Option<Config.Profile>
    var currentWindow: Option<WindowInfo>
    var lastAnalysis: Option<Screen.ScreenAnalysis>
    var autoBrightness: bool
    var autoContrast: bool
    var autoProfile: bool
    var fullscreenOnly: bool
    var running: bool
    var guiActive: bool
    var lastSent: LastSent
    /**
     * The monitor configuration the application's colour-mode and
     * colour-preset callbacks read (`get_profile_color_mode`,
     * `get_profile_color_preset`); `null` before they are installed.
     */
    var colorSource: Config.MonitorConfig?
    /** What the window, profile, settings and background-write observers received, in order. */
    var windowReports: seq<Option<WindowInfo>>
    var profileReports: seq<Config.Profile>
    var settingsReports: seq<SettingsChange>
    var dispatched: seq<Dispatch>

    /** `geometry` is what `ddc.get_geometry()` answered. */
    constructor (config: Config.Config, ddc: DdcChannel.DdcController, display: int,
                 windows: WindowMonitor.ActiveWindowTracker, analyzer: Screen.ScreenAnalyzer,
                 geometry: Option<Ddc.MonitorGeometry>, autoProfileEnabled: bool)
      ensures this.config == config && this.ddc == ddc && this.display == display
      ensures this.windows == windows && this.analyzer == analyzer
      ensures monitorGeometry == geometry && activeProfile.None? && currentWindow.None? && lastAnalysis.None?
      ensures !autoBrightness && !autoContrast && autoProfile == autoProfileEnabled && !fullscreenOnly
      ensures !running && guiActive && lastSent == LastSent(None, None)
      ensures colorSource == null
      ensures windowReports == [] && profileReports == [] && settingsReports == [] && dispatched == []
    {
      this.config := config;
      this.ddc := ddc;
      this.display := display;
      this.windows := windows;
      this.analyzer := analyzer;
      monitorGeometry := geometry;
      activeProfile := None;
      currentWindow := None;
      lastAnalysis := None;
      autoBrightness := false;
      autoContrast := false;
      autoProfile := autoProfileEnabled;
      fullscreenOnly := false;
      running := false;
      guiActive := true;
      lastSent := LastSent(None, None);
      colorSource := null;
      windowReports := [];
      profileReports := [];
      settingsReports := [];
      dispatched := [];
    }

    /** The colour values `_apply_profile` would write for `p`. */
    function ColorFor(p: Config.Profile): ColorWrite
      reads this`colorSource, colorSource
    {
      if colorSource == null then ColorValues(p.settings.colorPreset, None)
      else ColorValues(CombinedFor(p, colorSource.profileColorModes), SeparateFor(p, colorSource.profileColorPresets))
    }

    /** Neither the manager's profile state nor the channel changed. */
    twostate predicate Kept()
      reads this`activeProfile, this`autoBrightness, this`autoContrast, this`profileReports
      reads ddc`vcpCache, ddc`commandLog, ddc`busyLog, ddc`events
    {
      activeProfile == old(activeProfile) && autoBrightness == old(autoBrightness) && autoContrast == old(autoContrast)
      && profileReports == old(profileReports)
      && ddc.vcpCache == old(ddc.vcpCache) && ddc.commandLog == old(ddc.commandLog) && ddc.busyLog == old(ddc.busyLog)
      && ddc.events == old(ddc.events)
    }

    /**
     * The whole effect of `_apply_profile(p, force)`, given which colour
     * writes were sent (`Some(ok)`) and which not (`None`): nothing when
     * `p` is already active and the call is not forced, else `Switched`.
     */
    twostate predicate Applied(p: Config.Profile, force: bool, new dcSent: Option<bool>, new cpSent: Option<bool>)
      reads this`activeProfile, this`autoBrightness, this`autoContrast, this`profileReports, this`guiActive
      reads this`colorSource, colorSource, ddc`vcpCache, ddc`commandLog, ddc`busyLog, ddc`events
    {
      if old(activeProfile) == Some(p) && !force then Kept() && dcSent.None? && cpSent.None?
      else Switched(p, force, dcSent, cpSent)
    }

    /**
     * Switching to `p`: the profile's auto flags override the manager's,
     * the profile observers hear of `p` while the window is shown, each
     * colour code is written when `NeedsWrite` says so, and the
     * profile becomes active unless the 0xDC write failed.
     */
    twostate predicate Switched(p: Config.Profile, force: bool, new dcSent: Option<bool>, new cpSent: Option<bool>)
      reads this`activeProfile, this`autoBrightness, this`autoContrast, this`profileReports, this`guiActive
      reads this`colorSource, colorSource, ddc`vcpCache
    {
      && profileReports == old(profileReports) + (if guiActive then [p] else [])
      && autoBrightness == (if p.autoBrightness.Some? then p.autoBrightness.value else old(autoBrightness))
      && autoContrast == (if p.autoContrast.Some? then p.autoContrast.value else old(autoContrast))
      && ColorsWritten(ColorFor(p), force, old(ddc.vcpCache), ddc.vcpCache, dcSent, cpSent)
      && activeProfile == (if dcSent == Some(false) then old(activeProfile) else Some(p))
    }

    /** `_apply_profile`. */
    method ApplyProfile(p: Config.Profile, force: bool) returns (ghost dcSent: Option<bool>, ghost cpSent: Option<bool>)
      modifies this`activeProfile, this`autoBrightness, this`autoContrast, this`profileReports, ddc`vcpCache, ddc`commandLog, ddc`busyLog, ddc`events
      ensures Applied(p, force, dcSent, cpSent)
    {
      dcSent, cpSent := None, None;
      if activeProfile == Some(p) && !force {
        return;
      }
      dcSent, cpSent := SwitchTo(p, force);
    }

    /** The part of `_apply_profile` after the already-active check. */
    method SwitchTo(p: Config.Profile, force: bool) returns (ghost dcSent: Option<bool>, ghost cpSent: Option<bool>)
      modifies this`activeProfile, this`autoBrightness, this`autoContrast, this`profileReports, ddc`vcpCache, ddc`commandLog, ddc`busyLog, ddc`events
      ensures Switched(p, force, dcSent, cpSent)
    {
      TakeOver(p);
      var applied;
      dcSent, cpSent, applied := WriteColors(ColorFor(p), force);
      if applied {
        activeProfile := Some(p);
      }
    }

    /** The first part of a switch: the profile's auto flags, then the profile observers. */
    method TakeOver(p: Config.Profile)
      modifies this`autoBrightness, this`autoContrast, this`profileReports
      ensures autoBrightness == (if p.autoBrightness.Some? then p.autoBrightness.value else old(autoBrightness))
      ensures autoContrast == (if p.autoContrast.Some? then p.autoContrast.value else old(autoContrast))
      ensures profileReports == old(profileReports) + (if guiActive then [p] else [])
    {
      if p.autoBrightness.Some? {
        autoBrightness := p.autoBrightness.value;
      }
      if p.autoContrast.Some? {
        autoContrast := p.autoContrast.value;
      }
      if guiActive {
        profileReports := profileReports + [p];
      }
    }

    /** The colour writes of `_apply_profile`; `applied` is the outcome of the 0xDC one. */
    method WriteColors(c: ColorWrite, force: bool) returns (ghost dcSent: Option<bool>, ghost cpSent: Option<bool>, applied: bool)
      modifies ddc`vcpCache, ddc`commandLog, ddc`busyLog, ddc`events
      ensures ColorsWritten(c, force, old(ddc.vcpCache), ddc.vcpCache, dcSent, cpSent)
      ensures applied == (dcSent != Some(false))
    {
      ghost var cache0 := ddc.vcpCache;
      dcSent, applied := WriteColor(Ddc.VcpColorPreset, c.displayMode, force);
      OtherCodeUnaffected(cache0, Ddc.VcpColorPreset, c.displayMode, dcSent, Ddc.VcpColorTemp, c.colorPreset, force);
      var presetOk;
      cpSent, presetOk := WriteColor(Ddc.VcpColorTemp, c.colorPreset, force);
    }

    /**
     * One colour write of `_apply_profile`, sent unverified and forced
     * when `NeedsWrite` says so; `ok` is false only for a write that failed.
     */
    method WriteColor(code: int, v: Option<int>, force: bool) returns (ghost sent: Option<bool>, ok: bool)
      modifies ddc`vcpCache, ddc`commandLog, ddc`busyLog, ddc`events
      ensures sent.Some? <==> NeedsWrite(old(ddc.vcpCache), code, v, force)
      ensures ddc.vcpCache == AfterWrite(old(ddc.vcpCache), code, v, sent)
      ensures ok == (sent != Some(false))
      ensures sent.None? ==> ddc.commandLog == old(ddc.commandLog) && ddc.busyLog == old(ddc.busyLog)
                             && ddc.events == old(ddc.events)
      ensures sent.Some? ==> ddc.WroteVcp(code, v.value, Some(true), true, sent.value)
    {
      sent, ok := None, true;
      if NeedsWrite(ddc.vcpCache, code, v, force) {
        ok := ddc.SetVcp(code, v.value, Some(true), true);
        sent := Some(ok);
      }
    }

    /** The gates of `_on_window_change` that decide whether the profile may switch. */
    predicate SwitchAllowed(w: WindowInfo)
      reads this`autoProfile, this`fullscreenOnly, this`monitorGeometry
    {
      autoProfile && !IsOwnWindow(w) && OnMonitor(monitorGeometry, display, w)
      && (!fullscreenOnly || w.isFullscreen || w.isMaximized)
    }

    /**
     * `_on_window_change`: the window is reported (or `None` when it is on
     * another monitor); then, when every gate passes and the matching
     * profile is not the active one, that profile is applied.
     */
    method OnWindowChange(w: WindowInfo) returns (ghost applied: bool, ghost dcSent: Option<bool>, ghost cpSent: Option<bool>)
      modifies this`currentWindow, this`windowReports
      modifies this`activeProfile, this`autoBrightness, this`autoContrast, this`profileReports, ddc`vcpCache, ddc`commandLog, ddc`busyLog, ddc`events
      ensures currentWindow == Some(w)
      ensures windowReports == old(windowReports) + [if OnMonitor(monitorGeometry, display, w) then Some(w) else None]
      ensures applied <==> SwitchAllowed(w)
                           && Some(MatchingProfile(config.profiles, config.defaultProfile, w)) != old(activeProfile)
      ensures !applied ==> Kept()
      ensures applied ==> Applied(MatchingProfile(config.profiles, config.defaultProfile, w), false, dcSent, cpSent)
    {
      applied, dcSent, cpSent := false, None, None;
      currentWindow := Some(w);
      var onThis := OnMonitor(monitorGeometry, display, w);
      windowReports := windowReports + [if onThis then Some(w) else None];
      if !autoProfile {
        return;
      }
      if IsOwnWindow(w) {
        return;
      }
      if !onThis {
        return;
      }
      if fullscreenOnly && !(w.isFullscreen || w.isMaximized) {
        return;
      }
      var matched := FindMatchingProfile(config.profiles, config.defaultProfile, w);
      if Some(matched) != activeProfile {
        applied := true;
        dcSent, cpSent := ApplyProfile(matched, false);
      }
    }

    /** `_on_screen_analysis`. */
    method OnScreenAnalysis(a: Screen.ScreenAnalysis)
      modifies this`lastAnalysis, this`lastSent, this`dispatched, this`settingsReports
      ensures var r := AdaptiveStep(autoBrightness, autoContrast, old(lastSent), a);
              && lastAnalysis == Some(a) && lastSent == r.last && dispatched == old(dispatched) + r.dispatched
              && settingsReports == old(settingsReports) + (if guiActive then [r.change] else [])
    {
      lastAnalysis := Some(a);
      var b: Option<int> := None;
      var c: Option<int> := None;
      if autoBrightness {
        var v := a.suggestedBrightness;
        if Some(v) != lastSent.brightness {
          lastSent := lastSent.(brightness := Some(v));
          b := Some(v);
          dispatched := dispatched + [SendBrightness(v)];
        }
      }
      if autoContrast {
        var v := a.suggestedContrast;
        if Some(v) != lastSent.contrast {
          lastSent := lastSent.(contrast := Some(v));
          c := Some(v);
          dispatched := dispatched + [SendContrast(v)];
        }
      }
      if guiActive {
        settingsReports := settingsReports + [SettingsChange(b, c, a.meanBrightness, a.darkRatio, a.brightRatio)];
      }
    }

    /**
     * `set_profile`: the first profile of that name, or else the default
     * profile for `default`, is applied unforced; an unknown name changes
     * nothing.
     */
    method SetProfile(name: string) returns (found: bool, ghost dcSent: Option<bool>, ghost cpSent: Option<bool>)
      modifies this`activeProfile, this`autoBrightness, this`autoContrast, this`profileReports, ddc`vcpCache, ddc`commandLog, ddc`busyLog, ddc`events
      ensures var i := Config.FirstNamed(config.profiles, name);
              && (found <==> i < |config.profiles| || name == "default")
              && (!found ==> Kept())
              && (found ==> Applied(if i < |config.profiles| then config.profiles[i] else config.defaultProfile,
                                    false, dcSent, cpSent))
    {
      dcSent, cpSent := None, None;
      var i := Config.FindNamed(config.profiles, name);
      if i < |config.profiles| {
        dcSent, cpSent := ApplyProfile(config.profiles[i], false);
        return true, dcSent, cpSent;
      }
      if name == "default" {
        dcSent, cpSent := ApplyProfile(config.defaultProfile, false);
        return true, dcSent, cpSent;
      }
      found := false;
    }

    /**
     * `start`: the first time, subscribes `_on_window_change` to the window
     * tracker and applies the default profile; later calls change nothing.
     */
    method Start() returns (ghost dcSent: Option<bool>, ghost cpSent: Option<bool>)
      modifies this`running, windows`hasCallback, windows`running
      modifies this`activeProfile, this`autoBrightness, this`autoContrast, this`profileReports, ddc`vcpCache, ddc`commandLog, ddc`busyLog, ddc`events
      ensures running
      ensures old(running) ==> Kept() && windows.running == old(windows.running) && windows.hasCallback == old(windows.hasCallback)
      ensures !old(running) ==> windows.running && (old(windows.running) || windows.hasCallback)
      ensures !old(running) ==> Applied(config.defaultProfile, false, dcSent, cpSent)
    {
      dcSent, cpSent := None, None;
      if running {
        return;
      }
      running := true;
      windows.StartMonitoring();
      dcSent, cpSent := ApplyProfile(config.defaultProfile, false);
    }

    /** `stop`: the manager, the window tracker and the screen analyzer all stop. */
    method Stop()
      modifies this`running, windows`running, analyzer`running
      ensures !running && !windows.running && !analyzer.running
    {
      running := false;
      windows.StopMonitoring();
      analyzer.StopMonitoring();
    }

    /**
     * `set_auto_brightness_enabled`: the flag is set; when asked to, the
     * active profile takes the flag and the configuration saves it under
     * the profile's name.  Whether the file was written does not matter.
     */
    method SetAutoBrightnessEnabled(enabled: bool, saveToProfile: bool, saveOk: bool)
      modifies this`autoBrightness, this`activeProfile, config`profiles, config`defaultProfile
      ensures autoBrightness == enabled
      ensures !(saveToProfile && old(activeProfile).Some?) ==>
                activeProfile == old(activeProfile) && config.profiles == old(config.profiles)
                && config.defaultProfile == old(config.defaultProfile)
      ensures saveToProfile && old(activeProfile).Some? ==>
                activeProfile == Some(Config.WithAuto(old(activeProfile).value, Some(enabled), None))
                && config.AutoSaved(old(activeProfile).value.name, Some(enabled), None)
    {
      autoBrightness := enabled;
      if saveToProfile && activeProfile.Some? {
        activeProfile := Some(Config.WithAuto(activeProfile.value, Some(enabled), None));
        var _ := config.SaveProfileAutoSettings(activeProfile.value.name, Some(enabled), None, saveOk);
      }
    }

    /** `set_auto_contrast_enabled`, the same for contrast. */
    method SetAutoContrastEnabled(enabled: bool, saveToProfile: bool, saveOk: bool)
      modifies this`autoContrast, this`activeProfile, config`profiles, config`defaultProfile
      ensures autoContrast == enabled
      ensures !(saveToProfile && old(activeProfile).Some?) ==>
                activeProfile == old(activeProfile) && config.profiles == old(config.profiles)
                && config.defaultProfile == old(config.defaultProfile)
      ensures saveToProfile && old(activeProfile).Some? ==>
                activeProfile == Some(Config.WithAuto(old(activeProfile).value, None, Some(enabled)))
                && config.AutoSaved(old(activeProfile).value.name, None, Some(enabled))
    {
      autoContrast := enabled;
      if saveToProfile && activeProfile.Some? {
        activeProfile := Some(Config.WithAuto(activeProfile.value, None, Some(enabled)));
        var _ := config.SaveProfileAutoSettings(activeProfile.value.name, None, Some(enabled), saveOk);
      }
    }

    /** `set_auto_profile_enabled`. */
    method SetAutoProfileEnabled(enabled: bool)
      modifies this`autoProfile
      ensures autoProfile == enabled
    {
      autoProfile := enabled;
    }

    /** `set_fullscreen_only`. */
    method SetFullscreenOnly(enabled: bool)
      modifies this`fullscreenOnly
      ensures fullscreenOnly == enabled
    {
      fullscreenOnly := enabled;
    }

    /**
     * `set_profile_color_mode_callback` and `set_profile_color_preset_callback`
     * with the application's callbacks, which answer from `source`.
     */
    method SetColorSource(source: Config.MonitorConfig)
      modifies this`colorSource
      ensures colorSource == source
    {
      colorSource := source;
    }

    /** `set_gui_active`. */
    method SetGuiActive(active: bool)
      modifies this`guiActive
      ensures guiActive == active
    {
      guiActive := active;
    }
  }
}
