/**
 * `DDCController.get_xrandr_monitors` (monitor_control/ddc.py): the reading
 * of `xrandr --query` output into monitor geometries.  A `connected` line
 * with a `WxH+X+Y` geometry opens a monitor, an indented mode line carrying
 * `*` gives its native resolution and scale, and a later unindented output
 * line closes it.
 *
 * The command's output is a parameter: `None` stands for the
 * `subprocess.SubprocessError` the source catches (it then returns no
 * monitors).
 */
module Xrandr {
  import opened Wrappers
  import Text
  import Ddc

  /** `(\d+)` at `i`: the number and the position after it. */
  function NumberAt(s: string, i: nat): (r: Option<(nat, nat)>)
    ensures r.Some? ==> i < r.value.1 <= |s|
    ensures r.Some? ==> forall k :: i <= k < r.value.1 ==> Text.IsDigit(s[k])
    ensures r.Some? ==> r.value.1 == |s| || !Text.IsDigit(s[r.value.1])
  {
    var e := Text.RunAt(s, i, Text.IsDigit);
    if e.None? then None else Some((Text.ParseDecimal(s[i..e.value]), e.value))
  }

  /** `(\d+)` followed by the character `sep`: the number and the position after `sep`. */
  function NumberThen(s: string, i: nat, sep: char): (r: Option<(nat, nat)>)
    ensures r.Some? ==> i + 1 < r.value.1 <= |s| && s[r.value.1 - 1] == sep
  {
    var n := NumberAt(s, i);
    if n.None? || n.value.1 == |s| || s[n.value.1] != sep then None
    else Some((n.value.0, n.value.1 + 1))
  }

  /** `(primary\s+)?` at `i`: whether the group matched, and where the geometry starts. */
  function PrimaryAt(s: string, i: nat): (r: (bool, nat))
    requires i <= |s|
    ensures i <= r.1 <= |s|
    ensures r.0 <==> r.1 != i
  {
    if i + 7 <= |s| && s[i..i + 7] == "primary" then
      var e := Text.SkipWhile(s, i + 7, Text.IsSpace);
      if e > i + 7 then (true, e) else (false, i)
    else (false, i)
  }

  /** `(\d+)x(\d+)\+(\d+)\+(\d+)` at `i`: width, height, x and y. */
  function GeometryAt(line: string, i: nat): (r: Option<(nat, nat, nat, nat)>) {
    var w := NumberThen(line, i, 'x');
    if w.None? then None
    else
      var h := NumberThen(line, w.value.1, '+');
      if h.None? then None
      else
        var x := NumberThen(line, h.value.1, '+');
        if x.None? then None
        else
          var y := NumberAt(line, x.value.1);
          if y.None? then None else Some((w.value.0, h.value.0, x.value.0, y.value.0))
  }

  /**
   * `^(\S+)\s+connected\s+(primary\s+)?` at the start of `line`: where the
   * output name ends, whether `primary` is there, and where the geometry starts.
   */
  function OutputHead(line: string): (r: Option<(nat, bool, nat)>)
    ensures r.Some? ==> 0 < r.value.0 <= r.value.2 <= |line|
    ensures r.Some? ==> forall k :: 0 <= k < r.value.0 ==> !Text.IsSpace(line[k])
  {
    var n := Text.SkipWhile(line, 0, Text.IsNonSpace);
    var a := Text.SkipWhile(line, n, Text.IsSpace);
    if n == 0 || a == n || !(a + 9 <= |line| && line[a..a + 9] == "connected") then None
    else
      var b := Text.SkipWhile(line, a + 9, Text.IsSpace);
      if b == a + 9 then None
      else
        var p := PrimaryAt(line, b);
        Some((n, p.0, p.1))
  }

  /**
   * `re.match(r'^(\S+)\s+connected\s+(primary\s+)?(\d+)x(\d+)\+(\d+)\+(\d+)', line)`
   * and the monitor built from it: framebuffer geometry, native size equal
   * to it until a mode line says otherwise, scale 1.
   */
  function ConnectedLine(line: string): (r: Option<Ddc.MonitorGeometry>)
    ensures r.Some? ==> 0 < |r.value.name| <= |line| && r.value.name == line[..|r.value.name|]
    ensures r.Some? ==> forall k :: 0 <= k < |r.value.name| ==> !Text.IsSpace(r.value.name[k])
    ensures r.Some? ==> r.value.nativeWidth == r.value.width && r.value.nativeHeight == r.value.height
    ensures r.Some? ==> r.value.scaleX == 1.0 && r.value.scaleY == 1.0
    ensures r.Some? ==> r.value.x >= 0 && r.value.y >= 0 && r.value.width >= 0 && r.value.height >= 0
  {
    var head := OutputHead(line);
    if head.None? then None
    else
      var g := GeometryAt(line, head.value.2);
      if g.None? then None
      else
        var (w, h, x, y) := g.value;
        Some(Ddc.MonitorGeometry(line[..head.value.0], x, y, w, h, head.value.1, w, h, 1.0, 1.0))
  }

  /** `re.match(r'^\s+(\d+)x(\d+)\s+.*\*', line)`: the mode's width and height. */
  function ModeLine(line: string): (r: Option<(nat, nat)>) {
    var w := Text.SkipWhile(line, 0, Text.IsSpace);
    if w == 0 then None
    else
      var a := NumberThen(line, w, 'x');
      if a.None? then None
      else
        var b := NumberAt(line, a.value.1);
        if b.None? || b.value.1 == |line| || !Text.IsSpace(line[b.value.1]) then None
        else if '*' in line[b.value.1 + 1..] then Some((a.value.0, b.value.0))
        else None
  }

  /** The active mode's size becomes the native size; the scale is recomputed when both are positive. */
  function WithNativeMode(g: Ddc.MonitorGeometry, nw: nat, nh: nat): (r: Ddc.MonitorGeometry)
    ensures r.name == g.name && r.x == g.x && r.y == g.y && r.width == g.width && r.height == g.height
    ensures r.isPrimary == g.isPrimary && r.nativeWidth == nw && r.nativeHeight == nh
    ensures nw > 0 && nh > 0 ==> r.scaleX * nw as real == g.width as real && r.scaleY * nh as real == g.height as real
    ensures !(nw > 0 && nh > 0) ==> r.scaleX == g.scaleX && r.scaleY == g.scaleY
  {
    if nw > 0 && nh > 0 then
      g.(nativeWidth := nw, nativeHeight := nh, scaleX := g.width as real / nw as real, scaleY := g.height as real / nh as real)
    else
      g.(nativeWidth := nw, nativeHeight := nh)
  }

  /** The loop's state: the finished monitors and `current_monitor`. */
  datatype XState = XState(monitors: seq<Ddc.MonitorGeometry>, current: Option<Ddc.MonitorGeometry>)

  /** The current monitor, if any, appended to the finished ones. */
  function Flush(st: XState): seq<Ddc.MonitorGeometry> {
    if st.current.Some? then st.monitors + [st.current.value] else st.monitors
  }

  /** One pass of the loop body. */
  function Step(st: XState, line: string): XState {
    match ConnectedLine(line)
    case Some(g) => XState(Flush(st), Some(g))
    case None =>
      if st.current.Some? && Text.StartsWith(line, "   ") then
        match ModeLine(line)
        case None => st
        case Some(m) => st.(current := Some(WithNativeMode(st.current.value, m.0, m.1)))
      else if st.current.Some? && !Text.StartsWith(line, " ") && Text.Strip(line) != [] then
        if Text.Contains(line, "connected") || Text.Contains(line, "disconnected") then XState(Flush(st), None)
        else st
      else st
  }

  function Run(lines: seq<string>): XState {
    if lines == [] then XState([], None) else Step(Run(lines[..|lines| - 1]), lines[|lines| - 1])
  }

  /** `get_xrandr_monitors`: the monitors, or none when the command fails. */
  function Monitors(output: Option<string>): seq<Ddc.MonitorGeometry> {
    match output
    case None => []
    case Some(s) => Flush(Run(Text.Split(s, '\n')))
  }

  /** The loop of `get_xrandr_monitors`, over the lines of the command output. */
  method GetXrandrMonitors(output: Option<string>) returns (ms: seq<Ddc.MonitorGeometry>)
    ensures ms == Monitors(output)
  {
    if output.None? {
      return [];
    }
    var lines := Text.Split(output.value, '\n');
    var monitors: seq<Ddc.MonitorGeometry> := [];
    var current: Option<Ddc.MonitorGeometry> := None;
    var i := 0;
    while i < |lines|
      invariant 0 <= i <= |lines|
      invariant XState(monitors, current) == Run(lines[..i])
    {
      var line := lines[i];
      assert lines[..i + 1][..i] == lines[..i];
      assert Run(lines[..i + 1]) == Step(XState(monitors, current), line);
      var connected := ConnectedLine(line);
      if connected.Some? {
        if current.Some? {
          monitors := monitors + [current.value];
        }
        current := connected;
      } else if current.Some? && Text.StartsWith(line, "   ") {
        var mode := ModeLine(line);
        if mode.Some? {
          current := Some(WithNativeMode(current.value, mode.value.0, mode.value.1));
        }
      } else if current.Some? && !Text.StartsWith(line, " ") && Text.Strip(line) != [] {
        if Text.Contains(line, "connected") || Text.Contains(line, "disconnected") {
          monitors := monitors + [current.value];
          current := None;
        }
      }
      i := i + 1;
    }
    assert lines[..|lines|] == lines;
    if current.Some? {
      monitors := monitors + [current.value];
    }
    ms := monitors;
  }

  /** The output names, in order. */
  function Names(ms: seq<Ddc.MonitorGeometry>): (r: seq<string>)
    ensures |r| == |ms| && forall k :: 0 <= k < |ms| ==> r[k] == ms[k].name
  {
    if ms == [] then [] else Names(ms[..|ms| - 1]) + [ms[|ms| - 1].name]
  }

  /** The names of the `connected` lines with a geometry, in order. */
  function ConnectedNames(lines: seq<string>): seq<string> {
    if lines == [] then []
    else
      var c := ConnectedLine(lines[|lines| - 1]);
      ConnectedNames(lines[..|lines| - 1]) + (if c.Some? then [c.value.name] else [])
  }

  lemma NamesAppend(ms: seq<Ddc.MonitorGeometry>, g: Ddc.MonitorGeometry)
    ensures Names(ms + [g]) == Names(ms) + [g.name]
  {
  }

  function CurrentNames(st: XState): seq<string> {
    if st.current.Some? then [st.current.value.name] else []
  }

  /** A step adds the name of a `connected` line and keeps every other name. */
  lemma StepNames(st: XState, line: string)
    ensures Names(Step(st, line).monitors) + CurrentNames(Step(st, line))
         == Names(st.monitors) + CurrentNames(st)
            + (if ConnectedLine(line).Some? then [ConnectedLine(line).value.name] else [])
  {
    if st.current.Some? {
      NamesAppend(st.monitors, st.current.value);
    }
    var c := ConnectedLine(line);
    if c.Some? {
      assert Step(st, line) == XState(Flush(st), c);
    } else if st.current.Some? && Text.StartsWith(line, "   ") {
      var m := ModeLine(line);
      if m.Some? {
        assert Step(st, line) == st.(current := Some(WithNativeMode(st.current.value, m.value.0, m.value.1)));
      } else {
        assert Step(st, line) == st;
      }
    } else if st.current.Some? && !Text.StartsWith(line, " ") && Text.Strip(line) != [] {
      assert Step(st, line) == XState(Flush(st), None) || Step(st, line) == st;
    } else {
      assert Step(st, line) == st;
    }
  }

  lemma {:induction false} RunNames(lines: seq<string>)
    ensures Names(Run(lines).monitors) + CurrentNames(Run(lines)) == ConnectedNames(lines)
  {
    if lines != [] {
      var prefix := lines[..|lines| - 1];
      RunNames(prefix);
      StepNames(Run(prefix), lines[|lines| - 1]);
    }
  }

  /**
   * Every `connected` line with a geometry yields exactly one monitor, in
   * order, and nothing else does: a monitor is never lost or duplicated,
   * whichever line closes it.
   */
  lemma MonitorsAreTheConnectedOutputs(s: string)
    ensures Names(Monitors(Some(s))) == ConnectedNames(Text.Split(s, '\n'))
  {
    var st := Run(Text.Split(s, '\n'));
    RunNames(Text.Split(s, '\n'));
    if st.current.Some? {
      NamesAppend(st.monitors, st.current.value);
    }
  }

  /**
   * What the returned geometries satisfy: the framebuffer rectangle is the
   * non-negative one of the `connected` line, and the scale relates it to a
   * positive native size (`scale_x * native_width == width`).
   */
  predicate Consistent(g: Ddc.MonitorGeometry) {
    g.name != [] && g.x >= 0 && g.y >= 0 && g.width >= 0 && g.height >= 0
    && (g.nativeWidth > 0 && g.nativeHeight > 0 ==>
          g.scaleX * g.nativeWidth as real == g.width as real && g.scaleY * g.nativeHeight as real == g.height as real)
  }

  predicate AllConsistent(st: XState) {
    (forall k :: 0 <= k < |st.monitors| ==> Consistent(st.monitors[k]))
    && (st.current.Some? ==> Consistent(st.current.value))
  }

  lemma FlushConsistent(st: XState)
    requires AllConsistent(st)
    ensures forall k :: 0 <= k < |Flush(st)| ==> Consistent(Flush(st)[k])
  {
  }

  /** A geometry at scale 1 whose native size is its own is consistent. */
  lemma UnitScaleConsistent(g: Ddc.MonitorGeometry)
    requires g.name != [] && g.x >= 0 && g.y >= 0 && g.width >= 0 && g.height >= 0
    requires g.scaleX == 1.0 && g.scaleY == 1.0
    requires g.nativeWidth == g.width && g.nativeHeight == g.height
    ensures Consistent(g)
  {
  }

  /** A monitor opened by a `connected` line is consistent. */
  lemma ConnectedConsistent(line: string)
    requires ConnectedLine(line).Some?
    ensures Consistent(ConnectedLine(line).value)
  {
    UnitScaleConsistent(ConnectedLine(line).value);
  }

  lemma NativeModeConsistent(g: Ddc.MonitorGeometry, nw: nat, nh: nat)
    requires Consistent(g)
    ensures Consistent(WithNativeMode(g, nw, nh))
  {
  }

  lemma StepConsistent(st: XState, line: string)
    requires AllConsistent(st)
    ensures AllConsistent(Step(st, line))
  {
    var c := ConnectedLine(line);
    if c.Some? {
      FlushConsistent(st);
      ConnectedConsistent(line);
      assert Step(st, line) == XState(Flush(st), c);
    } else if st.current.Some? && Text.StartsWith(line, "   ") {
      var m := ModeLine(line);
      if m.Some? {
        var g := WithNativeMode(st.current.value, m.value.0, m.value.1);
        NativeModeConsistent(st.current.value, m.value.0, m.value.1);
        assert Step(st, line) == st.(current := Some(g));
      } else {
        assert Step(st, line) == st;
      }
    } else if st.current.Some? && !Text.StartsWith(line, " ") && Text.Strip(line) != [] {
      FlushConsistent(st);
      assert Step(st, line) == XState(Flush(st), None) || Step(st, line) == st;
    } else {
      assert Step(st, line) == st;
    }
  }

  lemma {:induction false} RunConsistent(lines: seq<string>)
    ensures AllConsistent(Run(lines))
  {
    if lines != [] {
      RunConsistent(lines[..|lines| - 1]);
      StepConsistent(Run(lines[..|lines| - 1]), lines[|lines| - 1]);
    }
  }

  lemma MonitorsConsistent(output: Option<string>)
    ensures forall k :: 0 <= k < |Monitors(output)| ==> Consistent(Monitors(output)[k])
  {
    if output.Some? {
      RunConsistent(Text.Split(output.value, '\n'));
    }
  }
}
