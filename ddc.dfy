/**
 * monitor_control/ddc.py, the value part: monitor geometry and its
 * centre-point attribution, the monitor record and its config id, the VCP
 * feature codes of the VESA Monitor Control Command Set that the program
 * uses, the single "combined" colour value that folds features 0xDC and
 * 0x14 into one number, and the clamps applied by the convenience setters.
 */
module Ddc {
  import opened Wrappers
  import Text

  // VCP feature codes (VESA MCCS) used by the controller.
  const VcpBrightness: int := 0x10
  const VcpContrast: int := 0x12
  const VcpColorTemp: int := 0x14
  const VcpRedGain: int := 0x16
  const VcpGreenGain: int := 0x18
  const VcpBlueGain: int := 0x1A
  const VcpSharpness: int := 0x87
  const VcpColorPreset: int := 0xDC

  /** Codes written with `--noverify` when the caller does not say. */
  const NoVerifyCodes: set<int> := {0x10, 0x12, 0x14, 0x16, 0x18, 0x1A, 0xDC}

  /** Offset that marks a 0x14 colour preset inside a combined colour value. */
  const PresetOffset: int := 0x1000

  /** `MonitorGeometry`: framebuffer rectangle, native panel size and scale. */
  datatype MonitorGeometry = MonitorGeometry(
    name: string,
    x: int, y: int, width: int, height: int,
    isPrimary: bool,
    nativeWidth: int, nativeHeight: int,
    scaleX: real, scaleY: real)

  /** `contains_point`: the rectangle is half-open on its right and bottom edges. */
  predicate ContainsPoint(g: MonitorGeometry, px: int, py: int) {
    g.x <= px < g.x + g.width && g.y <= py < g.y + g.height
  }

  /** The centre of a window, with Python's floor division. */
  function Centre(wx: int, wy: int, ww: int, wh: int): (c: (int, int))
    ensures 2 * (c.0 - wx) <= ww < 2 * (c.0 - wx) + 2
    ensures 2 * (c.1 - wy) <= wh < 2 * (c.1 - wy) + 2
  {
    (wx + ww / 2, wy + wh / 2)
  }

  /** `contains_window`: a window belongs to a monitor when its centre does. */
  predicate ContainsWindow(g: MonitorGeometry, wx: int, wy: int, ww: int, wh: int) {
    var c := Centre(wx, wy, ww, wh);
    ContainsPoint(g, c.0, c.1)
  }

  /** Two monitor rectangles that share no pixel. */
  predicate Disjoint(a: MonitorGeometry, b: MonitorGeometry) {
    a.x + a.width <= b.x || b.x + b.width <= a.x || a.y + a.height <= b.y || b.y + b.height <= a.y
  }

  /**
   * On a desktop of pairwise non-overlapping monitors, a window is
   * attributed to at most one of them.
   */
  lemma CentreOnAtMostOneMonitor(ms: seq<MonitorGeometry>, wx: int, wy: int, ww: int, wh: int)
    requires forall p, q :: 0 <= p < q < |ms| ==> Disjoint(ms[p], ms[q])
    ensures forall p, q :: 0 <= p < q < |ms| && ContainsWindow(ms[p], wx, wy, ww, wh) ==> !ContainsWindow(ms[q], wx, wy, ww, wh)
  {
  }

  /**
   * Two monitors side by side (1920 wide, the second starting at x = 1920): a
   * window straddling the seam goes to the monitor holding its centre, here
   * the right one, and a window ending exactly at the seam to the left one.
   */
  lemma SeamAttribution(left: MonitorGeometry, right: MonitorGeometry)
    requires left.x == 0 && left.y == 0 && left.width == 1920 && left.height == 1080
    requires right.x == 1920 && right.y == 0 && right.width == 1920 && right.height == 1080
    ensures ContainsWindow(right, 1800, 100, 400, 300) && !ContainsWindow(left, 1800, 100, 400, 300)
    ensures ContainsWindow(left, 0, 0, 1920, 1080) && !ContainsWindow(right, 0, 0, 1920, 1080)
  {
  }

  /** `MonitorInfo`, as `detect_monitors` builds it. */
  datatype MonitorInfo = MonitorInfo(
    displayNumber: int,
    model: string,
    serial: string,
    manufacturer: string,
    bus: string,
    i2cBus: string,
    drmConnector: string,
    geometry: Option<MonitorGeometry>)

  /**
   * The serial clean-up: the result has letters, digits and `_` only; every
   * letter and digit stays where it was, and every other character becomes `_`.
   */
  function Sanitise(s: string): (r: string)
    ensures |r| == |s|
    ensures forall k :: 0 <= k < |r| ==> Text.IsWordChar(r[k])
    ensures forall k :: 0 <= k < |s| && Text.IsAlnum(s[k]) ==> r[k] == s[k]
    ensures forall k :: 0 <= k < |s| && !Text.IsAlnum(s[k]) ==> r[k] == '_'
  {
    seq(|s|, k requires 0 <= k < |s| => if Text.IsAlnum(s[k]) then s[k] else '_')
  }

  /** The clean-up changes a string exactly when it holds a character other than a letter, a digit or `_`. */
  lemma SanitiseFixesWordStrings(s: string)
    ensures Sanitise(s) == s <==> forall k :: 0 <= k < |s| ==> Text.IsWordChar(s[k])
  {
    if forall k :: 0 <= k < |s| ==> Text.IsWordChar(s[k]) {
      assert forall k :: 0 <= k < |s| ==> Sanitise(s)[k] == s[k];
    }
  }

  /** Cleaning a serial twice is cleaning it once. */
  lemma SanitiseIdempotent(s: string)
    ensures Sanitise(Sanitise(s)) == Sanitise(s)
  {
    SanitiseFixesWordStrings(Sanitise(s));
  }

  /**
   * The model clean-up: like the serial clean-up, except that spaces stay
   * (they become `_` afterwards).
   */
  function SanitiseKeepingSpaces(s: string): (r: string)
    ensures |r| == |s|
    ensures forall k :: 0 <= k < |r| ==> Text.IsWordChar(r[k]) || r[k] == ' '
    ensures forall k :: 0 <= k < |s| && (Text.IsAlnum(s[k]) || s[k] == ' ') ==> r[k] == s[k]
    ensures forall k :: 0 <= k < |s| && !(Text.IsAlnum(s[k]) || s[k] == ' ') ==> r[k] == '_'
  {
    seq(|s|, k requires 0 <= k < |s| => if Text.IsAlnum(s[k]) || s[k] == ' ' then s[k] else '_')
  }

  /** Replacing the spaces the model clean-up keeps gives the serial clean-up of the same text. */
  lemma SpacesThenUnderscores(s: string)
    ensures Text.ReplaceChar(SanitiseKeepingSpaces(s), ' ', '_') == Sanitise(s)
  {
    var a, b := Text.ReplaceChar(SanitiseKeepingSpaces(s), ' ', '_'), Sanitise(s);
    assert forall k :: 0 <= k < |s| ==> a[k] == b[k];
  }

  /** `MonitorInfo.get_config_id`. */
  function ConfigId(m: MonitorInfo): string {
    if m.serial != [] then
      Text.ReplaceChar(m.model + "_" + Sanitise(m.serial), ' ', '_')
    else
      Text.ReplaceChar(SanitiseKeepingSpaces(m.model) + "_display" + Text.IntToString(m.displayNumber), ' ', '_')
  }

  /** A config id never contains a space, so it is usable as a file name stem. */
  lemma ConfigIdHasNoSpace(m: MonitorInfo)
    ensures ' ' !in ConfigId(m)
  {
  }

  /**
   * Without a serial, the id of a monitor with a non-negative display number
   * uses only letters, digits and `_`.
   */
  lemma ConfigIdWithoutSerialIsWordChars(m: MonitorInfo)
    requires m.serial == [] && m.displayNumber >= 0
    ensures forall k :: 0 <= k < |ConfigId(m)| ==> Text.IsWordChar(ConfigId(m)[k])
  {
    var body := SanitiseKeepingSpaces(m.model) + "_display" + Text.NatToString(m.displayNumber);
    assert forall k :: 0 <= k < |body| ==> Text.IsWordChar(body[k]) || body[k] == ' ';
  }

  /**
   * With a serial, the id is the model with spaces replaced, then `_`, then
   * the cleaned serial: it depends on nothing else.
   */
  lemma ConfigIdWithSerial(m: MonitorInfo)
    requires m.serial != []
    ensures ConfigId(m) == Text.ReplaceChar(m.model, ' ', '_') + "_" + Sanitise(m.serial)
  {
    var s := Sanitise(m.serial);
    assert ' ' !in s;
    var full := m.model + "_" + s;
    var r := Text.ReplaceChar(full, ' ', '_');
    var e := Text.ReplaceChar(m.model, ' ', '_') + "_" + s;
    assert |r| == |e|;
    forall k | 0 <= k < |r| ensures r[k] == e[k] {
      if k < |m.model| {
        assert full[k] == m.model[k];
      } else if k > |m.model| {
        assert full[k] == s[k - |m.model| - 1];
      }
    }
  }

  /**
   * Two serial-less monitors of the same model on different displays never
   * share a config file.
   */
  lemma ConfigIdSeparatesDisplays(m1: MonitorInfo, m2: MonitorInfo)
    requires m1.serial == [] && m2.serial == [] && m1.model == m2.model
    requires m1.displayNumber >= 0 && m2.displayNumber >= 0
    requires m1.displayNumber != m2.displayNumber
    ensures ConfigId(m1) != ConfigId(m2)
  {
    var prefix := SanitiseKeepingSpaces(m1.model) + "_display";
    var n1 := Text.NatToString(m1.displayNumber);
    var n2 := Text.NatToString(m2.displayNumber);
    var a := Text.ReplaceChar(prefix + n1, ' ', '_');
    var b := Text.ReplaceChar(prefix + n2, ' ', '_');
    if a == b {
      assert |n1| == |n2|;
      forall k | 0 <= k < |n1| ensures n1[k] == n2[k] {
        assert a[|prefix| + k] == n1[k];
        assert b[|prefix| + k] == n2[k];
      }
      assert n1 == n2;
      Text.ParseDecimalNatToString(m1.displayNumber);
      Text.ParseDecimalNatToString(m2.displayNumber);
    }
  }

  /**
   * `set_color_mode`'s reading of a combined colour value: from 0x1000 on it
   * is a 0x14 preset, below that a 0xDC display mode.
   */
  function ColorTarget(value: int): (t: (int, int))
    ensures t.0 == VcpColorPreset || t.0 == VcpColorTemp
    ensures t.0 == VcpColorTemp <==> value >= PresetOffset
    ensures CombinedValue(t.0, t.1) == value
  {
    if value >= PresetOffset then (VcpColorTemp, value - PresetOffset) else (VcpColorPreset, value)
  }

  /** The combined value `get_available_color_modes` gives a value of a feature. */
  function CombinedValue(code: int, value: int): int
    requires code == VcpColorPreset || code == VcpColorTemp
  {
    if code == VcpColorTemp then value + PresetOffset else value
  }

  /**
   * Capability values are bytes; for those, reading a combined value back
   * recovers the feature and the value it was built from, and the two
   * features' combined values never collide.
   */
  lemma ColorTargetInvertsCombinedValue(code: int, value: int)
    requires code == VcpColorPreset || code == VcpColorTemp
    requires 0 <= value < 256
    ensures ColorTarget(CombinedValue(code, value)) == (code, value)
    ensures CombinedValue(code, value) < PresetOffset <==> code == VcpColorPreset
  {
  }

  /** `max(lo, min(hi, value))`. */
  function Clamp(lo: int, hi: int, value: int): (r: int)
    ensures lo <= r
    ensures lo <= hi ==> r <= hi
    ensures lo <= value <= hi ==> r == value
    ensures lo <= hi && value < lo ==> r == lo
    ensures lo <= hi && hi < value ==> r == hi
  {
    var m := if hi < value then hi else value;
    if m < lo then lo else m
  }
}
