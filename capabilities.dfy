/**
 * The line-by-line reading of `ddcutil capabilities` output done by
 * `DDCController.get_capabilities` (monitor_control/ddc.py): the model line,
 * the MCCS version line, one `Feature: XX (name)` header per VCP feature and
 * the `XX: description` value lines listed under the latest header.
 *
 * The loop over the lines lives in `DdcChannel.DdcController.GetCapabilities`;
 * this module gives the state it keeps (`Scan`), one step of it (`Step`) and
 * the whole fold (`Run`) against which that loop is proved.
 */
module Capabilities {
  import opened Wrappers
  import Text
  import Assoc

  /** `{'name': ..., 'values': {...}}`: a feature and its value table, in listing order. */
  datatype Feature = Feature(name: string, values: seq<(nat, string)>)

  /** The `capabilities` dictionary; `features` is keyed by VCP code, in listing order. */
  datatype Caps = Caps(model: string, mccsVersion: string, features: seq<(nat, Feature)>)

  /**
   * The loop's state: the dictionary so far, and the code under which
   * `current_feature` is stored (None before the first header).
   */
  datatype Scan = Scan(caps: Caps, current: Option<nat>)

  const Start: Scan := Scan(Caps("", "", []), None)

  predicate HexPairAt(s: string, i: nat) {
    i + 2 <= |s| && Text.IsHexDigit(s[i]) && Text.IsHexDigit(s[i + 1])
  }

  /** The length of the leading whitespace of a line: what `^\s+` consumes. */
  function Indent(line: string): (w: nat)
    ensures w <= |line|
    ensures forall k :: 0 <= k < w ==> Text.IsSpace(line[k])
    ensures w < |line| ==> !Text.IsSpace(line[w])
  {
    Text.SkipWhile(line, 0, Text.IsSpace)
  }

  /** `re.match(r'^\s+Feature: [0-9A-Fa-f]{2}', line)`. */
  predicate IsFeatureHeader(line: string) {
    var w := Indent(line);
    0 < w && w + 9 <= |line| && line[w..w + 9] == "Feature: " && HexPairAt(line, w + 9)
  }

  /** `Feature: ([0-9A-Fa-f]{2})\s*\((.*?)\)` matched at `i`: the code and the name. */
  function FeatureAt(line: string, i: nat): (r: Option<(nat, string)>)
    ensures r.Some? ==> r.value.0 < 256 && ')' !in r.value.1
    ensures r.Some? ==> i + 9 <= |line| && line[i..i + 9] == "Feature: "
  {
    if !(i + 9 <= |line| && line[i..i + 9] == "Feature: " && HexPairAt(line, i + 9)) then None
    else
      var w := Text.SkipWhile(line, i + 11, Text.IsSpace);
      if w == |line| || line[w] != '(' then None
      else
        var rest := line[w + 1..];
        var k := Text.IndexOf(rest, ')');
        if k == |rest| then None
        else
          Text.TwoHexDigitsAreAByte(line[i + 9..i + 11]);
          assert ')' !in rest[..k];
          Some((Text.ParseHex(line[i + 9..i + 11]), rest[..k]))
  }

  /** `re.search` of that pattern from position `i` on: the leftmost match. */
  function FeatureSearch(line: string, i: nat): (r: Option<(nat, string)>)
    requires i <= |line|
    ensures r.Some? ==> r.value.0 < 256 && ')' !in r.value.1
    decreases |line| - i
  {
    var f := FeatureAt(line, i);
    if f.Some? then f
    else if i == |line| then None
    else FeatureSearch(line, i + 1)
  }

  /** The search returns the match at `j` when nothing matches between `i` and `j`. */
  lemma {:induction false} FeatureSearchFinds(line: string, i: nat, j: nat)
    requires i <= j <= |line| && FeatureAt(line, j).Some?
    requires forall k :: i <= k < j ==> FeatureAt(line, k).None?
    ensures FeatureSearch(line, i) == FeatureAt(line, j)
    decreases j - i
  {
    if i < j {
      FeatureSearchFinds(line, i + 1, j);
    }
  }

  /**
   * On a header line the search cannot start inside the indentation, so
   * the feature recorded is the one the header itself names.
   */
  lemma HeaderNamesItsFeature(line: string)
    requires IsFeatureHeader(line) && FeatureAt(line, Indent(line)).Some?
    ensures FeatureSearch(line, 0) == FeatureAt(line, Indent(line))
  {
    var w := Indent(line);
    forall k | 0 <= k < w ensures FeatureAt(line, k).None? {
      NoFeatureAtSpace(line, k);
    }
    FeatureSearchFinds(line, 0, w);
  }

  /** No match of the feature pattern starts at a whitespace character. */
  lemma NoFeatureAtSpace(line: string, i: nat)
    requires i < |line| && Text.IsSpace(line[i])
    ensures FeatureAt(line, i).None?
  {
    if FeatureAt(line, i).Some? {
      FeatureStartsWithF(line, i);
    }
  }

  /** A match of the feature pattern begins with the letter `F`. */
  lemma FeatureStartsWithF(line: string, i: nat)
    requires FeatureAt(line, i).Some?
    ensures i < |line| && line[i] == 'F'
  {
    assert line[i..i + 9][0] == line[i];
  }

  /** `re.match(r'^\s+([0-9A-Fa-f]{2}):\s*(.*)', line)`: the value and its stripped description. */
  function ValueEntry(line: string): (r: Option<(nat, string)>)
    ensures r.Some? ==> r.value.0 < 256
    ensures r.Some? <==> 0 < Indent(line) && HexPairAt(line, Indent(line)) && Indent(line) + 2 < |line| && line[Indent(line) + 2] == ':'
  {
    var w := Indent(line);
    if 0 < w && HexPairAt(line, w) && w + 2 < |line| && line[w + 2] == ':' then
      Text.TwoHexDigitsAreAByte(line[w..w + 2]);
      Some((Text.ParseHex(line[w..w + 2]), Text.Strip(line[w + 3..])))
    else None
  }

  /**
   * One pass of the loop body over `line`, branch by branch in the source's
   * order: only a `Model:` line changes the model, only an `MCCS version:`
   * line the version, only a feature header the current feature, and a
   * listed code is never dropped.
   */
  function Step(sc: Scan, line: string): (r: Scan)
    ensures r.caps.model != sc.caps.model ==> Text.StartsWith(line, "   Model:")
    ensures r.caps.mccsVersion != sc.caps.mccsVersion ==> Text.StartsWith(line, "   MCCS version:")
    ensures r.current != sc.current ==> IsFeatureHeader(line)
    ensures r.caps.features != sc.caps.features ==> IsFeatureHeader(line) || (sc.current.Some? && ValueEntry(line).Some?)
    ensures forall c :: Assoc.HasKey(sc.caps.features, c) ==> Assoc.HasKey(r.caps.features, c)
  {
    if Text.StartsWith(line, "   Model:") then
      sc.(caps := sc.caps.(model := Text.Strip(Text.After(line, ':'))))
    else if Text.StartsWith(line, "   MCCS version:") then
      sc.(caps := sc.caps.(mccsVersion := Text.Strip(Text.After(line, ':'))))
    else if IsFeatureHeader(line) then
      match FeatureSearch(line, 0)
      case None => sc
      case Some(cn) =>
        Assoc.PutKeys(sc.caps.features, cn.0, Feature(cn.1, []));
        Scan(sc.caps.(features := Assoc.Put(sc.caps.features, cn.0, Feature(cn.1, []))), Some(cn.0))
    else if sc.current.Some? && Text.Contains(line, "Values:") then sc
    else if sc.current.Some? && ValueEntry(line).Some? then
      var code := sc.current.value;
      var e := ValueEntry(line).value;
      match Assoc.Get(sc.caps.features, code)
      case None => sc
      case Some(f) =>
        Assoc.PutKeys(sc.caps.features, code, f.(values := Assoc.Put(f.values, e.0, e.1)));
        sc.(caps := sc.caps.(features := Assoc.Put(sc.caps.features, code, f.(values := Assoc.Put(f.values, e.0, e.1)))))
    else sc
  }

  /** The loop over `lines`, from the empty dictionary: whatever the output, the state stays well formed. */
  function Run(lines: seq<string>): (r: Scan)
    ensures WellFormed(r)
  {
    if lines == [] then Start
    else
      var before := Run(lines[..|lines| - 1]);
      StepWellFormed(before, lines[|lines| - 1]);
      Step(before, lines[|lines| - 1])
  }

  /** `get_capabilities`' reading of the command output: one entry per byte code, each with distinct byte values. */
  function Parse(stdout: string): (c: Caps)
    ensures Assoc.UniqueKeys(c.features)
    ensures forall e :: e in c.features ==> e.0 < 256 && ValuesOk(e.1)
  {
    Run(Text.Split(stdout, '\n')).caps
  }

  /** A value table: distinct values, each a byte. */
  predicate ValuesOk(f: Feature) {
    Assoc.UniqueKeys(f.values) && forall e :: e in f.values ==> e.0 < 256
  }

  /**
   * What the parser guarantees about its state: one entry per code, every
   * code and every value a byte, and `current_feature` always stored.
   */
  predicate WellFormed(sc: Scan) {
    Assoc.UniqueKeys(sc.caps.features)
    && (forall e :: e in sc.caps.features ==> e.0 < 256 && ValuesOk(e.1))
    && (sc.current.Some? ==> Assoc.HasKey(sc.caps.features, sc.current.value))
  }

  /** Storing a well-formed feature under a byte code keeps the table well formed. */
  lemma PutFeatureOk(fs: seq<(nat, Feature)>, code: nat, f: Feature)
    requires Assoc.UniqueKeys(fs) && forall e :: e in fs ==> e.0 < 256 && ValuesOk(e.1)
    requires code < 256 && ValuesOk(f)
    ensures Assoc.UniqueKeys(Assoc.Put(fs, code, f))
    ensures forall e :: e in Assoc.Put(fs, code, f) ==> e.0 < 256 && ValuesOk(e.1)
    ensures Assoc.HasKey(Assoc.Put(fs, code, f), code)
  {
    Assoc.PutUnique(fs, code, f);
    Assoc.PutEntries(fs, code, f);
    Assoc.PutKeys(fs, code, f);
  }

  /** Adding a byte value to a well-formed table keeps it well formed. */
  lemma PutValueOk(f: Feature, v: nat, desc: string)
    requires ValuesOk(f) && v < 256
    ensures ValuesOk(f.(values := Assoc.Put(f.values, v, desc)))
  {
    Assoc.PutUnique(f.values, v, desc);
    Assoc.PutEntries(f.values, v, desc);
  }

  lemma StepWellFormed(sc: Scan, line: string)
    requires WellFormed(sc)
    ensures WellFormed(Step(sc, line))
  {
    var model := Text.StartsWith(line, "   Model:");
    var version := Text.StartsWith(line, "   MCCS version:");
    if model || version {
      assert Step(sc, line).caps.features == sc.caps.features && Step(sc, line).current == sc.current;
    } else if IsFeatureHeader(line) {
      HeaderStepWellFormed(sc, line);
    } else if sc.current.Some? && (Text.Contains(line, "Values:") || ValueEntry(line).None?) {
      assert Step(sc, line) == sc;
    } else if sc.current.Some? {
      ValueStepWellFormed(sc, line);
    } else {
      assert Step(sc, line) == sc;
    }
  }

  lemma HeaderStepWellFormed(sc: Scan, line: string)
    requires WellFormed(sc)
    requires !Text.StartsWith(line, "   Model:") && !Text.StartsWith(line, "   MCCS version:") && IsFeatureHeader(line)
    ensures WellFormed(Step(sc, line))
  {
    var r := FeatureSearch(line, 0);
    if r.Some? {
      PutFeatureOk(sc.caps.features, r.value.0, Feature(r.value.1, []));
      assert Step(sc, line) == Scan(sc.caps.(features := Assoc.Put(sc.caps.features, r.value.0, Feature(r.value.1, []))), Some(r.value.0));
    } else {
      assert Step(sc, line) == sc;
    }
  }

  lemma ValueStepWellFormed(sc: Scan, line: string)
    requires WellFormed(sc) && sc.current.Some?
    requires !Text.StartsWith(line, "   Model:") && !Text.StartsWith(line, "   MCCS version:") && !IsFeatureHeader(line)
    requires !Text.Contains(line, "Values:") && ValueEntry(line).Some?
    ensures WellFormed(Step(sc, line))
  {
    var code := sc.current.value;
    var e := ValueEntry(line).value;
    var g := Assoc.Get(sc.caps.features, code);
    assert g.Some?;
    var f' := g.value.(values := Assoc.Put(g.value.values, e.0, e.1));
    Assoc.GetIsEntry(sc.caps.features, code);
    PutValueOk(g.value, e.0, e.1);
    Assoc.PutKeys(sc.caps.features, code, f');
    PutFeatureOk(sc.caps.features, code, f');
    assert Step(sc, line) == sc.(caps := sc.caps.(features := Assoc.Put(sc.caps.features, code, f')));
  }

  /**
   * A value line is filed under the feature of the latest header; every
   * other feature, the model and the version are left as they were.
   */
  lemma ValueLineFiledUnderCurrent(sc: Scan, line: string)
    requires WellFormed(sc) && sc.current.Some?
    requires !Text.StartsWith(line, "   Model:") && !Text.StartsWith(line, "   MCCS version:")
    requires !IsFeatureHeader(line) && !Text.Contains(line, "Values:")
    requires ValueEntry(line).Some?
    ensures var f := Assoc.Get(Step(sc, line).caps.features, sc.current.value);
            f.Some? && Assoc.Get(f.value.values, ValueEntry(line).value.0) == Some(ValueEntry(line).value.1)
    ensures forall c :: c != sc.current.value ==> Assoc.Get(Step(sc, line).caps.features, c) == Assoc.Get(sc.caps.features, c)
    ensures Step(sc, line).caps.model == sc.caps.model && Step(sc, line).caps.mccsVersion == sc.caps.mccsVersion
    ensures Step(sc, line).current == sc.current
  {
  }

  /** Before the first feature header, value lines are ignored. */
  lemma ValueLineWithoutFeatureIgnored(sc: Scan, line: string)
    requires sc.current.None?
    requires !Text.StartsWith(line, "   Model:") && !Text.StartsWith(line, "   MCCS version:")
    requires !IsFeatureHeader(line)
    ensures Step(sc, line) == sc
  {
  }

  /**
   * A header for a code already listed starts that feature afresh: its name
   * is replaced, its values are emptied, and it keeps its place in the order.
   */
  lemma RepeatedHeaderResetsFeature(sc: Scan, line: string)
    requires WellFormed(sc)
    requires !Text.StartsWith(line, "   Model:") && !Text.StartsWith(line, "   MCCS version:")
    requires IsFeatureHeader(line) && FeatureSearch(line, 0).Some?
    ensures var cn := FeatureSearch(line, 0).value;
            && Assoc.Get(Step(sc, line).caps.features, cn.0) == Some(Feature(cn.1, []))
            && Step(sc, line).current == Some(cn.0)
            && Assoc.Keys(Step(sc, line).caps.features)
               == if Assoc.HasKey(sc.caps.features, cn.0) then Assoc.Keys(sc.caps.features)
                  else Assoc.Keys(sc.caps.features) + [cn.0]
  {
    var cn := FeatureSearch(line, 0).value;
    Assoc.PutKeys(sc.caps.features, cn.0, Feature(cn.1, []));
  }
}
