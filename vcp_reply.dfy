/**
 * The reply parser of `DDCController.get_vcp` (monitor_control/ddc.py):
 * four regular expressions, all case-insensitive, searched for anywhere in
 * ddcutil's output.  Each expression is written out here as the
 * deterministic scan it amounts to: every greedy repetition in them is
 * followed by a literal outside its class, so it takes the longest run;
 * a lazy `.*?` tries the positions of the current line from left to right
 * (`.` does not match a newline); `re.search` tries the start positions
 * from left to right.
 */
module VcpReply {
  import opened Wrappers
  import Text

  datatype FeatureType = Continuous | NonContinuous

  /** `VCPFeature`. */
  datatype VcpFeature = VcpFeature(code: nat, name: string, currentValue: nat, maxValue: nat, featureType: FeatureType)

  /** The literal `lit` at position `i`, ignoring ASCII case. */
  predicate LitAt(s: string, i: nat, lit: string) {
    i + |lit| <= |s| && Text.Lower(s[i..i + |lit|]) == Text.Lower(lit)
  }

  /** A mismatch in the first character rules a literal out. */
  lemma NotLitAt(s: string, i: nat, lit: string)
    requires lit != [] && i < |s| && Text.LowerChar(s[i]) != Text.LowerChar(lit[0])
    ensures !LitAt(s, i, lit)
  {
    if i + |lit| <= |s| {
      assert Text.Lower(s[i..i + |lit|])[0] == Text.LowerChar(s[i]);
    }
  }

  /** `\s*` from `i` (nothing to skip past the end). */
  function Spaces(s: string, i: nat): (j: nat)
    ensures i <= |s| ==> i <= j <= |s|
    ensures i > |s| ==> j == i
  {
    if i <= |s| then Text.SkipWhile(s, i, Text.IsSpace) else i
  }

  /** The start of every format: `VCP code 0x([0-9A-Fa-f]+)\s+\(([^)]+)\)`. */
  datatype Header = Header(code: nat, name: string, end: nat)

  /** The class `[^)]`. */
  predicate NotClosing(c: char) { c != ')' }

  function HeaderAt(s: string, i: nat): (r: Option<Header>)
    ensures r.Some? ==> i < r.value.end <= |s| && s[r.value.end - 1] == ')' && ')' !in r.value.name && r.value.name != []
  {
    if !LitAt(s, i, "VCP code 0x") then None
    else
      var h := Text.RunAt(s, i + 11, Text.IsHexDigit);
      if h.None? then None
      else
        var w := Text.RunAt(s, h.value, Text.IsSpace);
        if w.None? || w.value == |s| || s[w.value] != '(' then None
        else
          var n := Text.RunAt(s, w.value + 1, NotClosing);
          if n.None? || n.value == |s| then None
          else
            var name := s[w.value + 1..n.value];
            assert forall k :: 0 <= k < |name| ==> NotClosing(name[k]);
            Some(Header(Text.ParseHex(s[i + 11..h.value]), name, n.value + 1))
  }

  /** `key\s*=\s*(\d+)`, or `key\s*=\s*0x([0-9A-Fa-f]+)` when `hex`: the value and the end. */
  function AssignAt(s: string, i: nat, key: string, hex: bool): (r: Option<(nat, nat)>)
    ensures r.Some? ==> i < r.value.1 <= |s|
  {
    if !LitAt(s, i, key) then None
    else
      var e := Spaces(s, i + |key|);
      if e == |s| || s[e] != '=' then None
      else
        var v := Spaces(s, e + 1);
        if hex then
          if !LitAt(s, v, "0x") then None
          else
            var d := Text.RunAt(s, v + 2, Text.IsHexDigit);
            if d.None? then None else Some((Text.ParseHex(s[v + 2..d.value]), d.value))
        else
          var d := Text.RunAt(s, v, Text.IsDigit);
          if d.None? then None else Some((Text.ParseDecimal(s[v..d.value]), d.value))
  }

  /** `Invalid value\s+\(sl=0x([0-9A-Fa-f]+)\)`: the value and the end. */
  function InvalidAt(s: string, i: nat): (r: Option<(nat, nat)>)
    ensures r.Some? ==> i < r.value.1 <= |s|
  {
    if !LitAt(s, i, "Invalid value") then None
    else
      var w := Text.RunAt(s, i + 13, Text.IsSpace);
      if w.None? || !LitAt(s, w.value, "(sl=0x") then None
      else
        var d := Text.RunAt(s, w.value + 6, Text.IsHexDigit);
        if d.None? || d.value == |s| || s[d.value] != ')' then None
        else Some((Text.ParseHex(s[w.value + 6..d.value]), d.value + 1))
  }

  /** The single-valued patterns that follow a lazy `.*?`. */
  datatype Tail = CurrentHex | MaxDecimal | InvalidSl

  function TailAt(s: string, i: nat, t: Tail): (r: Option<(nat, nat)>)
    ensures r.Some? ==> i < r.value.1 <= |s|
  {
    match t
    case CurrentHex => AssignAt(s, i, "current value", true)
    case MaxDecimal => AssignAt(s, i, "max value", false)
    case InvalidSl => InvalidAt(s, i)
  }

  /** No newline between `i` and `j`: `.*` can get from one to the other. */
  predicate SameLine(s: string, i: nat, j: nat)
    requires i <= j <= |s|
  {
    forall k :: i <= k < j ==> s[k] != '\n'
  }

  /**
   * The first position `k >= i` reachable from `i` without crossing a
   * newline at which `hits[k]` holds: the lazy `.*?` in front of a pattern
   * that matches exactly at the positions of `hits`.
   */
  function FirstOnLine(s: string, hits: seq<bool>, i: nat): (r: Option<nat>)
    requires |hits| == |s| + 1 && i <= |s|
    ensures r.Some? ==> i <= r.value <= |s| && SameLine(s, i, r.value) && hits[r.value]
    ensures r.Some? ==> forall k :: i <= k < r.value ==> !hits[k]
    ensures r.None? ==> forall k :: i <= k <= |s| && SameLine(s, i, k) ==> !hits[k]
    decreases |s| - i
  {
    if hits[i] then Some(i)
    else if i == |s| || s[i] == '\n' then None
    else
      var r := FirstOnLine(s, hits, i + 1);
      assert forall k :: i + 1 <= k <= |s| && SameLine(s, i, k) ==> SameLine(s, i + 1, k);
      r
  }

  /** A position that neither matches nor ends the line passes the scan on. */
  lemma FirstOnLineStep(s: string, hits: seq<bool>, i: nat)
    requires |hits| == |s| + 1 && i < |s| && !hits[i] && s[i] != '\n'
    ensures FirstOnLine(s, hits, i) == FirstOnLine(s, hits, i + 1)
  {
  }

  /** The scan stops at the first hit when nothing before it is a hit or ends the line. */
  lemma {:induction false} FirstOnLineReaches(s: string, hits: seq<bool>, i: nat, j: nat)
    requires |hits| == |s| + 1 && i <= j <= |s| && hits[j]
    requires forall k :: i <= k < j ==> !hits[k] && s[k] != '\n'
    ensures FirstOnLine(s, hits, i) == Some(j)
    decreases j - i
  {
    if i < j {
      FirstOnLineReaches(s, hits, i + 1, j);
    }
  }

  /** The positions at which `t` matches. */
  function TailHits(s: string, t: Tail): (hits: seq<bool>)
    ensures |hits| == |s| + 1 && forall k :: 0 <= k <= |s| ==> hits[k] == TailAt(s, k, t).Some?
  {
    seq(|s| + 1, (k: int) requires 0 <= k => TailAt(s, k, t).Some?)
  }

  /** `.*?` followed by `t`. */
  function LazyTail(s: string, i: nat, t: Tail): (r: Option<nat>)
    requires i <= |s|
    ensures r.Some? ==> i <= r.value <= |s| && SameLine(s, i, r.value) && TailAt(s, r.value, t).Some?
    ensures r.Some? ==> forall k :: i <= k < r.value ==> TailAt(s, k, t).None?
    ensures r.None? ==> forall k :: i <= k <= |s| && SameLine(s, i, k) ==> TailAt(s, k, t).None?
  {
    FirstOnLine(s, TailHits(s, t), i)
  }

  /** The scan stops at the first match when nothing before it matches or ends the line. */
  lemma LazyTailReaches(s: string, i: nat, j: nat, t: Tail)
    requires i <= j <= |s| && TailAt(s, j, t).Some?
    requires forall k :: i <= k < j ==> TailAt(s, k, t).None? && s[k] != '\n'
    ensures LazyTail(s, i, t) == Some(j)
  {
    FirstOnLineReaches(s, TailHits(s, t), i, j);
  }

  /** `current value\s*=\s*(\d+).*?max value\s*=\s*(\d+)` at `i`: current and max. */
  function CurrentAndMaxAt(s: string, i: nat): (r: Option<(nat, nat)>)
  {
    var c := AssignAt(s, i, "current value", false);
    if c.None? then None
    else
      var m := LazyTail(s, c.value.1, MaxDecimal);
      if m.None? then None else Some((c.value.0, TailAt(s, m.value, MaxDecimal).value.0))
  }

  function CurrentAndMaxHits(s: string): (hits: seq<bool>)
    ensures |hits| == |s| + 1 && forall k :: 0 <= k <= |s| ==> hits[k] == CurrentAndMaxAt(s, k).Some?
  {
    seq(|s| + 1, (k: int) requires 0 <= k => CurrentAndMaxAt(s, k).Some?)
  }

  /** `.*?current value…max value…`. */
  function LazyCurrentAndMax(s: string, i: nat): (r: Option<nat>)
    requires i <= |s|
    ensures r.Some? ==> i <= r.value <= |s| && SameLine(s, i, r.value) && CurrentAndMaxAt(s, r.value).Some?
    ensures r.Some? ==> forall k :: i <= k < r.value ==> CurrentAndMaxAt(s, k).None?
    ensures r.None? ==> forall k :: i <= k <= |s| && SameLine(s, i, k) ==> CurrentAndMaxAt(s, k).None?
  {
    FirstOnLine(s, CurrentAndMaxHits(s), i)
  }

  lemma LazyCurrentAndMaxReaches(s: string, i: nat, j: nat)
    requires i <= j <= |s| && CurrentAndMaxAt(s, j).Some?
    requires forall k :: i <= k < j ==> CurrentAndMaxAt(s, k).None? && s[k] != '\n'
    ensures LazyCurrentAndMax(s, i) == Some(j)
  {
    FirstOnLineReaches(s, CurrentAndMaxHits(s), i, j);
  }

  /**
   * The four reply formats, in the order `get_vcp` tries them: continuous
   * (`current value = 50, max value = 100`), hexadecimal
   * (`current value = 0x01`), invalid value (`Invalid value (sl=0x12)`) and
   * named value (`: User 1 (sl=0x0b)`).
   */
  datatype Format = DecimalFormat | HexFormat | InvalidFormat | NamedFormat

  /** The named-value tail `:\s*([^(]+?)\s*\(sl=0x([0-9A-Fa-f]+)\)` at `i`: its value. */
  function NamedAt(s: string, i: nat): (r: Option<nat>)
  {
    if i >= |s| || s[i] != ':' then None
    else
      var q := i + 1 + Text.IndexOf(s[i + 1..], '(');
      // at least one character before the first '(', which must open "(sl=0x<hex>)"
      if q <= i + 1 || !LitAt(s, q, "(sl=0x") then None
      else
        var d := Text.RunAt(s, q + 6, Text.IsHexDigit);
        if d.None? || d.value == |s| || s[d.value] != ')' then None
        else Some(Text.ParseHex(s[q + 6..d.value]))
  }

  /** The reply of format `f` when its expression matches starting at `i`. */
  function ReplyAt(s: string, i: nat, f: Format): (r: Option<VcpFeature>)
    ensures r.Some? ==> HeaderAt(s, i).Some? && r.value.code == HeaderAt(s, i).value.code && r.value.name == HeaderAt(s, i).value.name
    ensures r.Some? ==> (r.value.featureType == Continuous <==> f == DecimalFormat)
    ensures r.Some? && f != DecimalFormat ==> r.value.maxValue == 255
  {
    var h := HeaderAt(s, i);
    if h.None? then None
    else
      var e := h.value.end;
      match f
      case DecimalFormat =>
        var k := LazyCurrentAndMax(s, e);
        if k.None? then None
        else
          var cm := CurrentAndMaxAt(s, k.value).value;
          Some(VcpFeature(h.value.code, h.value.name, cm.0, cm.1, Continuous))
      case HexFormat =>
        var k := LazyTail(s, e, CurrentHex);
        if k.None? then None
        else Some(VcpFeature(h.value.code, h.value.name, TailAt(s, k.value, CurrentHex).value.0, 255, NonContinuous))
      case InvalidFormat =>
        var k := LazyTail(s, e, InvalidSl);
        if k.None? then None
        else Some(VcpFeature(h.value.code, h.value.name, TailAt(s, k.value, InvalidSl).value.0, 255, NonContinuous))
      case NamedFormat =>
        var v := NamedAt(s, e);
        if v.None? then None else Some(VcpFeature(h.value.code, h.value.name, v.value, 255, NonContinuous))
  }

  /** The first index at or after `i` at which `hits` holds. */
  function FirstHit(hits: seq<bool>, i: nat): (r: Option<nat>)
    ensures r.Some? ==> i <= r.value < |hits| && hits[r.value] && forall k :: i <= k < r.value ==> !hits[k]
    ensures r.None? ==> forall k :: i <= k < |hits| ==> !hits[k]
    decreases |hits| - i
  {
    if i >= |hits| then None else if hits[i] then Some(i) else FirstHit(hits, i + 1)
  }

  /** The start positions at which format `f` matches. */
  function ReplyHits(s: string, f: Format): (hits: seq<bool>)
    ensures |hits| == |s| + 1 && forall k :: 0 <= k <= |s| ==> hits[k] == ReplyAt(s, k, f).Some?
  {
    seq(|s| + 1, (k: int) requires 0 <= k => ReplyAt(s, k, f).Some?)
  }

  /** `re.search` for format `f`: the match at the leftmost start position that has one. */
  function Search(s: string, f: Format): (r: Option<VcpFeature>)
    ensures r.Some? ==> exists k :: 0 <= k <= |s| && ReplyAt(s, k, f) == r && forall j :: 0 <= j < k ==> ReplyAt(s, j, f).None?
    ensures r.None? ==> forall k :: 0 <= k <= |s| ==> ReplyAt(s, k, f).None?
    ensures r.Some? ==> (r.value.featureType == Continuous <==> f == DecimalFormat)
    ensures r.Some? && f != DecimalFormat ==> r.value.maxValue == 255
  {
    var k := FirstHit(ReplyHits(s, f), 0);
    if k.None? then None else ReplyAt(s, k.value, f)
  }

  /** The parser of `get_vcp` as written: continuous, hexadecimal, invalid value, named value. */
  function ParseReplyAsWritten(s: string): (r: Option<VcpFeature>)
    ensures r.Some? && r.value.featureType == NonContinuous ==> r.value.maxValue == 255
    ensures r.Some? && r.value.featureType == Continuous ==> r == Search(s, DecimalFormat)
    ensures r.None? <==> Search(s, DecimalFormat).None? && Search(s, HexFormat).None? && Search(s, InvalidFormat).None? && Search(s, NamedFormat).None?
  {
    var d := Search(s, DecimalFormat);
    if d.Some? then d
    else
      var h := Search(s, HexFormat);
      if h.Some? then h
      else
        var v := Search(s, InvalidFormat);
        if v.Some? then v else Search(s, NamedFormat)
  }

  /**
   * The parser the controller uses: the hexadecimal format is tried first,
   * since the continuous expression would otherwise read the `0` of a value
   * `0x05` as a decimal number.
   */
  function ParseReply(s: string): (r: Option<VcpFeature>)
    ensures r.Some? && r.value.featureType == NonContinuous ==> r.value.maxValue == 255
    ensures Search(s, HexFormat).Some? ==> r == Search(s, HexFormat)
    ensures r.None? <==> ParseReplyAsWritten(s).None?
  {
    var h := Search(s, HexFormat);
    if h.Some? then h
    else
      var d := Search(s, DecimalFormat);
      if d.Some? then d
      else
        var v := Search(s, InvalidFormat);
        if v.Some? then v else Search(s, NamedFormat)
  }

  /** Where the hexadecimal format does not match, the two orders agree. */
  lemma ReorderingOnlyAffectsHexReplies(s: string)
    requires Search(s, HexFormat).None?
    ensures ParseReply(s) == ParseReplyAsWritten(s)
  {
  }

  /**
   * A reply in the hexadecimal format of the comment at ddc.py:687
   * (`current value = 0x05, max value = 0x0b`).
   */
  const HexReplyExample: string := "VCP code 0x" + "14 (P): " + "current value" + " = 0x05, " + "max value" + " = 0x0b"

  /** The header of the example: code 0x14, name `P`, ending after the `)`. */
  lemma HexReplyExampleHeader()
    ensures HeaderAt(HexReplyExample, 0) == Some(Header(0x14, "P", 17))
  {
    var s := HexReplyExample;
    assert LitAt(s, 0, "VCP code 0x");
    assert Text.SkipWhile(s, 13, Text.IsHexDigit) == 13;
    assert Text.SkipWhile(s, 12, Text.IsHexDigit) == 13;
    assert Text.RunAt(s, 11, Text.IsHexDigit) == Some(13);
    assert Text.SkipWhile(s, 14, Text.IsSpace) == 14;
    assert Text.RunAt(s, 13, Text.IsSpace) == Some(14);
    assert Text.SkipWhile(s, 16, NotClosing) == 16;
    assert Text.RunAt(s, 15, NotClosing) == Some(16);
    assert s[11..13] == "14" && s[15..16] == "P";
    assert Text.ParseHex("14") == 0x14 by {
      assert "14"[..1] == "1";
      assert "1"[..0] == [];
    }
  }

  /** `current value = ` spans 19 to 35. */
  lemma HexReplyExampleCurrentKey()
    ensures LitAt(HexReplyExample, 19, "current value")
    ensures Spaces(HexReplyExample, 32) == 33 && HexReplyExample[33] == '='
    ensures Spaces(HexReplyExample, 34) == 35
  {
    var s := HexReplyExample;
    assert LitAt(s, 19, "current value");
    assert Text.SkipWhile(s, 33, Text.IsSpace) == 33 && Spaces(s, 32) == 33;
    assert Text.SkipWhile(s, 35, Text.IsSpace) == 35 && Spaces(s, 34) == 35;
  }

  lemma HexReplyExampleDecimalCurrent()
    ensures AssignAt(HexReplyExample, 19, "current value", false) == Some((0, 36))
  {
    var s := HexReplyExample;
    HexReplyExampleCurrentKey();
    assert Text.SkipWhile(s, 36, Text.IsDigit) == 36;
    assert Text.RunAt(s, 35, Text.IsDigit) == Some(36);
    assert s[35..36] == "0";
    assert Text.ParseDecimal("0") == 0 by { assert "0"[..0] == []; }
  }

  lemma HexReplyExampleDecimalMax()
    ensures AssignAt(HexReplyExample, 41, "max value", false) == Some((0, 54))
  {
    var s := HexReplyExample;
    assert LitAt(s, 41, "max value");
    assert Text.SkipWhile(s, 51, Text.IsSpace) == 51 && Spaces(s, 50) == 51;
    assert Text.SkipWhile(s, 53, Text.IsSpace) == 53 && Spaces(s, 52) == 53;
    assert Text.SkipWhile(s, 54, Text.IsDigit) == 54;
    assert Text.RunAt(s, 53, Text.IsDigit) == Some(54);
    assert s[53..54] == "0";
    assert Text.ParseDecimal("0") == 0 by { assert "0"[..0] == []; }
  }

  /** From `, ` after the current value up to `max value` nothing else matches. */
  lemma HexReplyExampleNoMax(k: nat)
    requires 36 <= k < 41
    ensures TailAt(HexReplyExample, k, MaxDecimal).None? && HexReplyExample[k] != '\n'
  {
    assert k == 36 || k == 37 || k == 38 || k == 39 || k == 40;
    NotLitAt(HexReplyExample, k, "max value");
  }

  /** The continuous expression, started at `current value`, reads 0 and 0. */
  lemma HexReplyExampleCurrentAndMax()
    ensures CurrentAndMaxAt(HexReplyExample, 19) == Some((0, 0))
  {
    var s := HexReplyExample;
    HexReplyExampleDecimalMax();
    forall k | 36 <= k < 41 ensures TailAt(s, k, MaxDecimal).None? && s[k] != '\n' {
      HexReplyExampleNoMax(k);
    }
    LazyTailReaches(s, 36, 41, MaxDecimal);
    HexReplyExampleDecimalCurrent();
  }

  /** Between the header and `current value` there is only `: `. */
  lemma HexReplyExampleGapDecimal(i: nat)
    requires i == 17 || i == 18
    ensures CurrentAndMaxAt(HexReplyExample, i).None? && HexReplyExample[i] != '\n'
  {
    NotLitAt(HexReplyExample, i, "current value");
  }

  lemma HexReplyExampleGapHex(i: nat)
    requires i == 17 || i == 18
    ensures TailAt(HexReplyExample, i, CurrentHex).None? && HexReplyExample[i] != '\n'
  {
    NotLitAt(HexReplyExample, i, "current value");
  }

  lemma HexReplyExampleDecimalScan()
    ensures LazyCurrentAndMax(HexReplyExample, 17) == Some(19)
  {
    var s := HexReplyExample;
    HexReplyExampleCurrentAndMax();
    forall k | 17 <= k < 19 ensures CurrentAndMaxAt(s, k).None? && s[k] != '\n' {
      HexReplyExampleGapDecimal(k);
    }
    LazyCurrentAndMaxReaches(s, 17, 19);
  }

  lemma HexReplyExampleDecimalReply()
    ensures ReplyAt(HexReplyExample, 0, DecimalFormat) == Some(VcpFeature(0x14, "P", 0, 0, Continuous))
  {
    HexReplyExampleHeader();
    HexReplyExampleDecimalScan();
    HexReplyExampleCurrentAndMax();
  }

  /**
   * As written, the continuous expression matches the example first and
   * reads the `0` in front of `x05` and `x0b`: current value 0, max value 0.
   */
  lemma HexReplyMisreadAsWritten()
    ensures ParseReplyAsWritten(HexReplyExample) == Some(VcpFeature(0x14, "P", 0, 0, Continuous))
  {
    HexReplyExampleDecimalReply();
    assert ReplyHits(HexReplyExample, DecimalFormat)[0];
  }

  /** The digits `05` after `0x`. */
  lemma HexReplyExampleHexDigits()
    ensures LitAt(HexReplyExample, 35, "0x")
    ensures Text.RunAt(HexReplyExample, 37, Text.IsHexDigit) == Some(39)
    ensures Text.ParseHex(HexReplyExample[37..39]) == 5
  {
    var s := HexReplyExample;
    assert LitAt(s, 35, "0x");
    assert Text.SkipWhile(s, 39, Text.IsHexDigit) == 39;
    assert Text.SkipWhile(s, 38, Text.IsHexDigit) == 39;
    assert s[37..39] == "05";
    assert Text.ParseHex("05") == 5 by {
      assert "05"[..1] == "0";
      assert "0"[..0] == [];
    }
  }

  lemma HexReplyExampleHexCurrent()
    ensures AssignAt(HexReplyExample, 19, "current value", true) == Some((5, 39))
  {
    HexReplyExampleCurrentKey();
    HexReplyExampleHexDigits();
  }

  lemma HexReplyExampleHexScan()
    ensures LazyTail(HexReplyExample, 17, CurrentHex) == Some(19)
  {
    var s := HexReplyExample;
    HexReplyExampleHexCurrent();
    forall k | 17 <= k < 19 ensures TailAt(s, k, CurrentHex).None? && s[k] != '\n' {
      HexReplyExampleGapHex(k);
    }
    LazyTailReaches(s, 17, 19, CurrentHex);
  }

  lemma HexReplyExampleHexReply()
    ensures ReplyAt(HexReplyExample, 0, HexFormat) == Some(VcpFeature(0x14, "P", 5, 255, NonContinuous))
  {
    HexReplyExampleHeader();
    HexReplyExampleHexScan();
    HexReplyExampleHexCurrent();
  }

  /** The corrected order reads the example as the hexadecimal value 5, max 255. */
  lemma HexReplyReadCorrectly()
    ensures ParseReply(HexReplyExample) == Some(VcpFeature(0x14, "P", 5, 255, NonContinuous))
  {
    HexReplyExampleHexReply();
    assert ReplyHits(HexReplyExample, HexFormat)[0];
  }
}
