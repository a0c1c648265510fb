/**
 * `DDCController._match_drm_to_xrandr` (monitor_control/ddc.py): finding the
 * xrandr output of the monitor behind a DRM connector name such as
 * `card1-DP-1`.  The connector's type and index give candidate xrandr names,
 * tried exactly first; failing that, the first output whose type prefix and
 * the connector type contain one another (ignoring case) is taken.
 *
 * Connector name parsing comes in two versions: the expression as written,
 * which rejects the kernel's `card1-HDMI-A-1` names, and the corrected one
 * that the rest of the model uses.
 */
module DrmMatch {
  import opened Wrappers
  import Text
  import Ddc

  /** The connector type (`DP`, `HDMI`, `eDP`, ...) and its index. */
  datatype Connector = Connector(kind: string, index: nat)

  /** `card\d+-` at the start: the position after the dash. */
  function CardPrefix(c: string): (r: Option<nat>)
    ensures r.Some? ==> 5 < r.value <= |c|
  {
    if !Text.StartsWith(c, "card") then None
    else
      var d := Text.RunAt(c, 4, Text.IsDigit);
      if d.None? || d.value == |c| || c[d.value] != '-' then None else Some(d.value + 1)
  }

  /** `(\w+)` at `i` followed by `-`: where the type ends. */
  function KindEnd(c: string, i: nat): (r: Option<nat>)
    ensures r.Some? ==> i < r.value < |c| && c[r.value] == '-'
    ensures r.Some? ==> forall k :: i <= k < r.value ==> Text.IsWordChar(c[k])
  {
    var w := Text.RunAt(c, i, Text.IsWordChar);
    if w.None? || w.value == |c| || c[w.value] != '-' then None else w
  }

  /** `re.match(r'card\d+-(\w+)-(\d+)', drm_connector)`, as written. */
  function ParseConnectorAsWritten(c: string): (r: Option<Connector>) {
    var p := CardPrefix(c);
    if p.None? then None
    else
      var w := KindEnd(c, p.value);
      if w.None? then None
      else
        var n := Text.RunAt(c, w.value + 1, Text.IsDigit);
        if n.None? then None
        else Some(Connector(c[p.value..w.value], Text.ParseDecimal(c[w.value + 1..n.value])))
  }

  /**
   * `(?:-[A-Za-z]+)*-(\d+)` at `i`: the index, after any letter-only
   * sub-type such as the `-A` of `HDMI-A-1`.
   */
  function IndexAfterSubtypes(c: string, i: nat): (r: Option<nat>)
    decreases |c| - i
  {
    if i >= |c| || c[i] != '-' then None
    else
      var n := Text.RunAt(c, i + 1, Text.IsDigit);
      if n.Some? then Some(Text.ParseDecimal(c[i + 1..n.value]))
      else
        var a := Text.RunAt(c, i + 1, Text.IsAlpha);
        if a.None? then None else IndexAfterSubtypes(c, a.value)
  }

  /** The corrected expression `card\d+-(\w+)(?:-[A-Za-z]+)*-(\d+)`. */
  function ParseConnector(c: string): (r: Option<Connector>) {
    var p := CardPrefix(c);
    if p.None? then None
    else
      var w := KindEnd(c, p.value);
      if w.None? then None
      else
        var n := IndexAfterSubtypes(c, w.value);
        if n.None? then None else Some(Connector(c[p.value..w.value], n.value))
  }

  /** The correction only adds names: whatever the original expression reads, it reads the same. */
  lemma ParseConnectorExtendsAsWritten(c: string)
    requires ParseConnectorAsWritten(c).Some?
    ensures ParseConnector(c) == ParseConnectorAsWritten(c)
  {
    var w := KindEnd(c, CardPrefix(c).value).value;
    assert Text.RunAt(c, w + 1, Text.IsDigit).Some?;
  }

  /** The candidate xrandr names for a connector, in the order they are tried. */
  function Patterns(c: Connector): (ps: seq<string>)
    ensures c.kind != "DP" && c.kind != "HDMI" && c.kind != "eDP" ==> ps == []
  {
    var n := c.index as int;
    if c.kind == "DP" then
      ["DisplayPort-" + Text.IntToString(n - 1), "DisplayPort-" + Text.IntToString(n),
       "DP-" + Text.IntToString(n - 1), "DP-" + Text.IntToString(n)]
    else if c.kind == "HDMI" then
      ["HDMI-" + Text.IntToString(n - 1), "HDMI-" + Text.IntToString(n), "HDMI-A-" + Text.IntToString(n)]
    else if c.kind == "eDP" then ["eDP", "eDP-1"]
    else []
  }

  /** The first monitor called `name`. */
  function FindNamed(ms: seq<Ddc.MonitorGeometry>, name: string): (r: Option<Ddc.MonitorGeometry>)
    ensures r.Some? ==> r.value in ms && r.value.name == name
    ensures r.None? ==> forall k :: 0 <= k < |ms| ==> ms[k].name != name
  {
    if ms == [] then None
    else if ms[0].name == name then Some(ms[0])
    else FindNamed(ms[1..], name)
  }

  /** What `FindNamed` finds is the first monitor of that name: every monitor before it has another name. */
  lemma {:induction false} FindNamedIsFirst(ms: seq<Ddc.MonitorGeometry>, name: string)
    ensures FindNamed(ms, name).Some? ==>
              exists k :: 0 <= k < |ms| && ms[k] == FindNamed(ms, name).value && forall j :: 0 <= j < k ==> ms[j].name != name
  {
    if ms != [] && ms[0].name != name {
      FindNamedIsFirst(ms[1..], name);
      if FindNamed(ms[1..], name).Some? {
        var k :| 0 <= k < |ms[1..]| && ms[1..][k] == FindNamed(ms[1..], name).value
                 && forall j :: 0 <= j < k ==> ms[1..][j].name != name;
        assert ms[k + 1] == FindNamed(ms, name).value;
        assert forall j :: 0 <= j < k + 1 ==> ms[j].name != name by {
          forall j | 0 <= j < k + 1
            ensures ms[j].name != name
          {
            if j > 0 {
              assert ms[j] == ms[1..][j - 1];
            }
          }
        }
      }
    }
  }

  /** The exact pass: the first pattern that names a monitor, and the first monitor it names. */
  function FirstExact(ps: seq<string>, ms: seq<Ddc.MonitorGeometry>): (r: Option<Ddc.MonitorGeometry>)
    ensures r.Some? ==> r.value in ms && r.value.name in ps
    ensures r.None? ==> forall p, k :: 0 <= p < |ps| && 0 <= k < |ms| ==> ms[k].name != ps[p]
  {
    if ps == [] then None
    else
      var f := FindNamed(ms, ps[0]);
      if f.Some? then f
      else
        var r := FirstExact(ps[1..], ms);
        assert forall p :: 1 <= p < |ps| ==> ps[p] == ps[1..][p - 1];
        r
  }

  /** The type prefix of an xrandr output name, upper-cased: `DISPLAYPORT` for `DisplayPort-0`. */
  function OutputType(name: string): string {
    Text.Upper(Text.Before(name, '-'))
  }

  /** The fallback test: the two type names, upper-cased, contain one another. */
  predicate PartialMatch(kind: string, name: string) {
    Text.Contains(OutputType(name), Text.Upper(kind)) || Text.Contains(Text.Upper(kind), OutputType(name))
  }

  function FirstPartial(kind: string, ms: seq<Ddc.MonitorGeometry>): (r: Option<Ddc.MonitorGeometry>)
    ensures r.Some? ==> r.value in ms && PartialMatch(kind, r.value.name)
    ensures r.None? ==> forall k :: 0 <= k < |ms| ==> !PartialMatch(kind, ms[k].name)
  {
    if ms == [] then None
    else if PartialMatch(kind, ms[0].name) then Some(ms[0])
    else FirstPartial(kind, ms[1..])
  }

  /** The search once the connector name has been read. */
  function MatchConnector(c: Option<Connector>, ms: seq<Ddc.MonitorGeometry>): Option<Ddc.MonitorGeometry> {
    match c
    case None => None
    case Some(conn) =>
      var e := FirstExact(Patterns(conn), ms);
      if e.Some? then e else FirstPartial(conn.kind, ms)
  }

  /** `_match_drm_to_xrandr` as written. */
  function MatchAsWritten(drm: string, ms: seq<Ddc.MonitorGeometry>): Option<Ddc.MonitorGeometry> {
    if drm == [] || ms == [] then None else MatchConnector(ParseConnectorAsWritten(drm), ms)
  }

  /** `_match_drm_to_xrandr` with the corrected connector expression. */
  function Match(drm: string, ms: seq<Ddc.MonitorGeometry>): Option<Ddc.MonitorGeometry> {
    if drm == [] || ms == [] then None else MatchConnector(ParseConnector(drm), ms)
  }

  /**
   * The result is one of the xrandr monitors; when some monitor carries one
   * of the candidate names, the result carries one too (the exact pass wins),
   * and otherwise the result passes the type test.
   */
  lemma MatchIsListed(drm: string, ms: seq<Ddc.MonitorGeometry>)
    ensures Match(drm, ms).Some? ==> Match(drm, ms).value in ms
    ensures Match(drm, ms).Some? ==> var c := ParseConnector(drm).value;
              Match(drm, ms).value.name in Patterns(c) || PartialMatch(c.kind, Match(drm, ms).value.name)
    ensures ParseConnector(drm).Some? && (exists p, k :: 0 <= p < |Patterns(ParseConnector(drm).value)| && 0 <= k < |ms|
                                            && ms[k].name == Patterns(ParseConnector(drm).value)[p])
            ==> Match(drm, ms).Some? && Match(drm, ms).value.name in Patterns(ParseConnector(drm).value)
  {
  }

  /** A connector of a type without candidate names is found by the type test alone. */
  lemma UnknownTypeUsesTypeTest(drm: string, ms: seq<Ddc.MonitorGeometry>)
    requires drm != [] && ms != [] && ParseConnector(drm).Some?
    requires var k := ParseConnector(drm).value.kind; k != "DP" && k != "HDMI" && k != "eDP"
    ensures Match(drm, ms) == FirstPartial(ParseConnector(drm).value.kind, ms)
  {
  }

  /** The loops of `_match_drm_to_xrandr`. */
  method MatchDrmToXrandr(drm: string, ms: seq<Ddc.MonitorGeometry>) returns (r: Option<Ddc.MonitorGeometry>)
    ensures r == Match(drm, ms)
  {
    if drm == [] || ms == [] {
      return None;
    }
    var conn := ParseConnector(drm);
    if conn.None? {
      return None;
    }
    var ps := Patterns(conn.value);
    var i := 0;
    while i < |ps|
      invariant 0 <= i <= |ps|
      invariant FirstExact(ps, ms) == FirstExact(ps[i..], ms)
    {
      var j := 0;
      while j < |ms|
        invariant 0 <= j <= |ms|
        invariant FindNamed(ms, ps[i]) == FindNamed(ms[j..], ps[i])
      {
        if ms[j].name == ps[i] {
          return Some(ms[j]);
        }
        assert ms[j..][1..] == ms[j + 1..];
        j := j + 1;
      }
      assert ps[i..][1..] == ps[i + 1..];
      i := i + 1;
    }
    var kind := Text.Upper(conn.value.kind);
    var j := 0;
    while j < |ms|
      invariant 0 <= j <= |ms|
      invariant FirstPartial(conn.value.kind, ms) == FirstPartial(conn.value.kind, ms[j..])
    {
      var t := OutputType(ms[j].name);
      if Text.Contains(t, kind) || Text.Contains(kind, t) {
        return Some(ms[j]);
      }
      assert ms[j..][1..] == ms[j + 1..];
      j := j + 1;
    }
    return None;
  }

  /** The kernel's name for the first HDMI connector of the second card. */
  const HdmiConnector: string := "card1-" + "HDMI-A-1"

  /** As written, `card1-HDMI-A-1` is not read at all, so no monitor is ever matched to it. */
  lemma HdmiConnectorUnmatchedAsWritten(ms: seq<Ddc.MonitorGeometry>)
    ensures ParseConnectorAsWritten(HdmiConnector) == None
    ensures MatchAsWritten(HdmiConnector, ms) == None
  {
    var c := HdmiConnector;
    assert Text.StartsWith(c, "card");
    assert Text.SkipWhile(c, 5, Text.IsDigit) == 5;
    assert CardPrefix(c) == Some(6);
    assert Text.SkipWhile(c, 10, Text.IsWordChar) == 10;
    assert Text.SkipWhile(c, 6, Text.IsWordChar) == 10;
    assert KindEnd(c, 6) == Some(10);
    assert !Text.IsDigit(c[11]);
  }

  /** Corrected, it reads as HDMI connector 1. */
  lemma HdmiConnectorRead()
    ensures ParseConnector(HdmiConnector) == Some(Connector("HDMI", 1))
  {
    var c := HdmiConnector;
    assert Text.StartsWith(c, "card");
    assert Text.SkipWhile(c, 5, Text.IsDigit) == 5;
    assert CardPrefix(c) == Some(6);
    assert Text.SkipWhile(c, 10, Text.IsWordChar) == 10;
    assert Text.SkipWhile(c, 6, Text.IsWordChar) == 10;
    assert KindEnd(c, 6) == Some(10);
    assert Text.SkipWhile(c, 12, Text.IsAlpha) == 12;
    assert Text.RunAt(c, 11, Text.IsAlpha) == Some(12);
    assert Text.SkipWhile(c, 14, Text.IsDigit) == 14;
    assert Text.RunAt(c, 13, Text.IsDigit) == Some(14);
    assert c[13..14] == "1";
    assert Text.ParseDecimal("1") == 1 by { assert "1"[..0] == []; }
    assert IndexAfterSubtypes(c, 12) == Some(1);
    assert c[6..10] == "HDMI";
  }

  /** ... and an xrandr output `HDMI-A-1` or `HDMI-1` is then found by its exact name. */
  lemma HdmiConnectorMatched(g: Ddc.MonitorGeometry)
    requires g.name == "HDMI-A-1" || g.name == "HDMI-1"
    ensures Match(HdmiConnector, [g]) == Some(g)
  {
    HdmiConnectorRead();
    var ps := Patterns(Connector("HDMI", 1));
    assert Text.IntToString(0) == "0" && Text.IntToString(1) == "1";
    assert ps[0] == "HDMI-" + "0" && ps[1] == "HDMI-" + "1" && ps[2] == "HDMI-A-" + "1";
    assert ps[0][5] != g.name[5];
    assert FindNamed([g], ps[0]) == None;
    if g.name == "HDMI-1" {
      assert FindNamed([g], ps[1]) == Some(g);
    } else {
      assert |ps[1]| != |g.name|;
      assert FindNamed([g], ps[1]) == None;
      assert FindNamed([g], ps[2]) == Some(g);
    }
  }
}
