/**
 * `DDCController.detect_monitors` (monitor_control/ddc.py): the reading of
 * `ddcutil detect --terse` output into monitor records.  Records are
 * separated by blank lines; a `Display N` line gives the display number,
 * `key: value` lines give the rest, and each finished record with a non-zero
 * display number is matched to an xrandr geometry through its DRM connector.
 *
 * Both command outputs are parameters; `None` stands for the
 * `subprocess.SubprocessError` the source catches.
 */
module Detect {
  import opened Wrappers
  import Text
  import Ddc
  import Xrandr
  import DrmMatch

  /** `current_monitor`: the keys seen so far in the record being read. */
  datatype Pending = Pending(
    displayNumber: Option<nat>,
    model: Option<string>,
    serial: Option<string>,
    manufacturer: Option<string>,
    bus: Option<string>,
    i2cBus: Option<string>,
    drmConnector: Option<string>)

  const NoFields: Pending := Pending(None, None, None, None, None, None, None)

  /** `if current_monitor.get('display_number')`: a number was read and it is not 0. */
  predicate HasDisplay(p: Pending) {
    p.displayNumber.Some? && p.displayNumber.value != 0
  }

  /** The record built from a finished entry, with the source's defaults and its geometry. */
  function Finish(p: Pending, xr: seq<Ddc.MonitorGeometry>): Ddc.MonitorInfo {
    var drm := p.drmConnector.GetOr("");
    Ddc.MonitorInfo(p.displayNumber.GetOr(0), p.model.GetOr("Unknown"), p.serial.GetOr(""),
                    p.manufacturer.GetOr("Unknown"), p.bus.GetOr(""), p.i2cBus.GetOr(""),
                    drm, DrmMatch.Match(drm, xr))
  }

  /** `x if x else default`. */
  function OrElse(s: string, d: string): string {
    if s == [] then d else s
  }

  /** The effect of one `key: value` line on the record. */
  function Field(p: Pending, key: string, value: string): Pending {
    if key == "monitor" && ':' in value then
      var parts := Text.Split(value, ':');
      var p1 := p.(manufacturer := Some(OrElse(parts[0], "Unknown")));
      var p2 := if |parts| >= 2 then p1.(model := Some(OrElse(parts[1], "Unknown"))) else p1;
      if |parts| >= 3 then p2.(serial := Some(OrElse(parts[2], ""))) else p2
    else if key == "model" then p.(model := Some(value))
    else if key == "serial_number" then p.(serial := Some(value))
    else if key == "manufacturer" then p.(manufacturer := Some(value))
    else if key == "i2c_bus" then p.(i2cBus := Some(value))
    else if key == "drm_connector" then p.(drmConnector := Some(value), bus := Some(value))
    else p
  }

  /** `key.strip().lower().replace(' ', '_')` for the text before the first `:`. */
  function Key(line: string): string {
    Text.ReplaceChar(Text.Lower(Text.Strip(Text.Before(line, ':'))), ' ', '_')
  }

  /** The loop's state: the finished records and the one being read. */
  datatype DState = DState(monitors: seq<Ddc.MonitorInfo>, pending: Pending)

  /** The record being read, appended when it has a display number. */
  function Flush(st: DState, xr: seq<Ddc.MonitorGeometry>): seq<Ddc.MonitorInfo> {
    if HasDisplay(st.pending) then st.monitors + [Finish(st.pending, xr)] else st.monitors
  }

  /** `re.match(r'Display (\d+)', line)`: the number. */
  function DisplayLine(line: string): (r: Option<nat>) {
    if !Text.StartsWith(line, "Display ") then None
    else
      var e := Text.RunAt(line, 8, Text.IsDigit);
      if e.None? then None else Some(Text.ParseDecimal(line[8..e.value]))
  }

  /** A `Display N` header, followed by anything that is not a digit, gives back `N`. */
  lemma DisplayLineReadsNumber(n: nat, rest: string)
    requires rest != [] ==> !Text.IsDigit(rest[0])
    ensures DisplayLine("Display " + Text.NatToString(n) + rest) == Some(n)
  {
    var line := "Display " + Text.NatToString(n) + rest;
    var digits := Text.NatToString(n);
    assert line[..8] == "Display ";
    assert forall k :: 8 <= k < 8 + |digits| ==> line[k] == digits[k - 8];
    assert 8 + |digits| < |line| ==> line[8 + |digits|] == rest[0];
    assert Text.RunAt(line, 8, Text.IsDigit) == Some(8 + |digits|) by {
      assert Text.IsDigit(line[8]);
      Text.SkipWhileReaches(line, 8, 8 + |digits|, Text.IsDigit);
    }
    assert line[8..8 + |digits|] == digits;
    Text.ParseDecimalNatToString(n);
  }

  /** One pass of the loop body over a raw line of output. */
  function Step(st: DState, raw: string, xr: seq<Ddc.MonitorGeometry>): DState {
    var line := Text.Strip(raw);
    if line == [] then DState(Flush(st, xr), NoFields)
    else if Text.StartsWith(line, "Display") then
      match DisplayLine(line)
      case None => st
      case Some(n) => st.(pending := st.pending.(displayNumber := Some(n)))
    else if ':' in line then
      st.(pending := Field(st.pending, Key(line), Text.Strip(Text.After(line, ':'))))
    else st
  }

  function Run(lines: seq<string>, xr: seq<Ddc.MonitorGeometry>): DState {
    if lines == [] then DState([], NoFields) else Step(Run(lines[..|lines| - 1], xr), lines[|lines| - 1], xr)
  }

  /** `detect_monitors`: xrandr is queried first, then ddcutil. */
  function Monitors(xrandrOutput: Option<string>, detectOutput: Option<string>): seq<Ddc.MonitorInfo> {
    var xr := Xrandr.Monitors(xrandrOutput);
    match detectOutput
    case None => []
    case Some(s) => Flush(Run(Text.Split(s, '\n'), xr), xr)
  }

  /** The loop of `detect_monitors`. */
  method DetectMonitors(xrandrOutput: Option<string>, detectOutput: Option<string>) returns (ms: seq<Ddc.MonitorInfo>)
    ensures ms == Monitors(xrandrOutput, detectOutput)
  {
    var xr := Xrandr.GetXrandrMonitors(xrandrOutput);
    if detectOutput.None? {
      return [];
    }
    var lines := Text.Split(detectOutput.value, '\n');
    var st := ReadLines(lines, xr);
    ms := st.monitors;
    if HasDisplay(st.pending) {
      var info := FinishRecord(st.pending, xr);
      ms := ms + [info];
    }
  }

  /** The loop of `detect_monitors` over the lines of the output. */
  method ReadLines(lines: seq<string>, xr: seq<Ddc.MonitorGeometry>) returns (st: DState)
    ensures st == Run(lines, xr)
  {
    var monitors: seq<Ddc.MonitorInfo> := [];
    var current := NoFields;
    var i := 0;
    while i < |lines|
      invariant 0 <= i <= |lines|
      invariant DState(monitors, current) == Run(lines[..i], xr)
    {
      assert lines[..i + 1][..i] == lines[..i];
      assert Run(lines[..i + 1], xr) == Step(Run(lines[..i], xr), lines[i], xr);
      monitors, current := ReadLine(monitors, current, lines[i], xr);
      i := i + 1;
    }
    assert lines[..|lines|] == lines;
    st := DState(monitors, current);
  }

  /** The body of the loop of `detect_monitors`, on one raw line. */
  method ReadLine(monitors: seq<Ddc.MonitorInfo>, current: Pending, raw: string, xr: seq<Ddc.MonitorGeometry>)
    returns (monitors': seq<Ddc.MonitorInfo>, current': Pending)
    ensures DState(monitors', current') == Step(DState(monitors, current), raw, xr)
  {
    monitors', current' := monitors, current;
    var line := Text.Strip(raw);
    if line == [] {
      if HasDisplay(current) {
        var info := FinishRecord(current, xr);
        monitors' := monitors + [info];
      }
      current' := NoFields;
    } else if Text.StartsWith(line, "Display") {
      var n := DisplayLine(line);
      if n.Some? {
        current' := current.(displayNumber := n);
      }
    } else if ':' in line {
      current' := Field(current, Key(line), Text.Strip(Text.After(line, ':')));
    }
  }

  /** Building a record, with the geometry found by the matching loops. */
  method FinishRecord(p: Pending, xr: seq<Ddc.MonitorGeometry>) returns (m: Ddc.MonitorInfo)
    ensures m == Finish(p, xr)
  {
    var drm := p.drmConnector.GetOr("");
    var geometry := DrmMatch.MatchDrmToXrandr(drm, xr);
    m := Ddc.MonitorInfo(p.displayNumber.GetOr(0), p.model.GetOr("Unknown"), p.serial.GetOr(""),
                         p.manufacturer.GetOr("Unknown"), p.bus.GetOr(""), p.i2cBus.GetOr(""),
                         drm, geometry);
  }

  /** What every reported monitor satisfies. */
  predicate Reported(m: Ddc.MonitorInfo, xr: seq<Ddc.MonitorGeometry>) {
    m.displayNumber >= 1 && (m.geometry.Some? ==> m.geometry.value in xr)
  }

  lemma FlushReported(st: DState, xr: seq<Ddc.MonitorGeometry>)
    requires forall k :: 0 <= k < |st.monitors| ==> Reported(st.monitors[k], xr)
    ensures forall k :: 0 <= k < |Flush(st, xr)| ==> Reported(Flush(st, xr)[k], xr)
  {
    if HasDisplay(st.pending) {
      DrmMatch.MatchIsListed(st.pending.drmConnector.GetOr(""), xr);
    }
  }

  lemma {:induction false} RunReported(lines: seq<string>, xr: seq<Ddc.MonitorGeometry>)
    ensures forall k :: 0 <= k < |Run(lines, xr).monitors| ==> Reported(Run(lines, xr).monitors[k], xr)
  {
    if lines != [] {
      var st := Run(lines[..|lines| - 1], xr);
      RunReported(lines[..|lines| - 1], xr);
      if Text.Strip(lines[|lines| - 1]) == [] {
        FlushReported(st, xr);
      } else {
        assert Step(st, lines[|lines| - 1], xr).monitors == st.monitors;
      }
    }
  }

  /**
   * Every detected monitor has a display number of at least 1 (records
   * without one, or with 0, are dropped), and its geometry, when found, is
   * one of the monitors xrandr reported.
   */
  lemma MonitorsReported(xrandrOutput: Option<string>, detectOutput: Option<string>)
    ensures forall k :: 0 <= k < |Monitors(xrandrOutput, detectOutput)| ==>
              Reported(Monitors(xrandrOutput, detectOutput)[k], Xrandr.Monitors(xrandrOutput))
  {
    var xr := Xrandr.Monitors(xrandrOutput);
    match detectOutput
    case None =>
    case Some(out) =>
      FinishedRunReported(Text.Split(out, '\n'), xr, Monitors(xrandrOutput, detectOutput));
  }

  lemma FinishedRunReported(lines: seq<string>, xr: seq<Ddc.MonitorGeometry>, ms: seq<Ddc.MonitorInfo>)
    requires ms == Flush(Run(lines, xr), xr)
    ensures forall k :: 0 <= k < |ms| ==> Reported(ms[k], xr)
  {
    RunReported(lines, xr);
    FlushReported(Run(lines, xr), xr);
  }

  /**
   * The terse `Monitor: MFG:Model:Serial` line fills manufacturer, model
   * and serial at once, empty parts becoming `Unknown`, `Unknown` and the
   * empty serial.
   */
  lemma MonitorLineFillsThreeFields(p: Pending, value: string)
    requires ':' in value
    ensures var parts := Text.Split(value, ':');
            && Field(p, "monitor", value).manufacturer == Some(OrElse(parts[0], "Unknown"))
            && Field(p, "monitor", value).model == Some(OrElse(parts[1], "Unknown"))
            && Field(p, "monitor", value).serial == (if |parts| >= 3 then Some(parts[2]) else p.serial)
            && Field(p, "monitor", value).displayNumber == p.displayNumber
            && Field(p, "monitor", value).drmConnector == p.drmConnector
  {
    Text.SplitAtSeparator(value, ':');
  }
}
