/**
 * The few Python `str` operations the monitor-control core relies on, over
 * `seq<char>`.  Character classes are the ASCII ones: `str.isspace`, `\s`,
 * `\d`, `\w`, `str.isalnum`, `str.lower` and `str.upper` are restricted to
 * ASCII in this model.
 */
module Text {
  import opened Wrappers

  /** `\s` and `str.isspace` on ASCII: space, \t, \n, \r, \v, \f. */
  predicate IsSpace(c: char) {
    c == ' ' || c == '\t' || c == '\n' || c == '\r' || c as int == 11 || c as int == 12
  }

  /** `\S`. */
  predicate IsNonSpace(c: char) { !IsSpace(c) }

  predicate IsDigit(c: char) { '0' <= c <= '9' }

  predicate IsHexDigit(c: char) { IsDigit(c) || 'a' <= c <= 'f' || 'A' <= c <= 'F' }

  predicate IsAlpha(c: char) { 'a' <= c <= 'z' || 'A' <= c <= 'Z' }

  predicate IsAlnum(c: char) { IsAlpha(c) || IsDigit(c) }

  /** The regex class `\w`. */
  predicate IsWordChar(c: char) { IsAlnum(c) || c == '_' }

  function LowerChar(c: char): char {
    if 'A' <= c <= 'Z' then (c as int + 32) as char else c
  }

  function UpperChar(c: char): char {
    if 'a' <= c <= 'z' then (c as int - 32) as char else c
  }

  /** `str.lower()`. */
  function Lower(s: string): string {
    seq(|s|, i requires 0 <= i < |s| => LowerChar(s[i]))
  }

  /** `str.upper()`. */
  function Upper(s: string): string {
    seq(|s|, i requires 0 <= i < |s| => UpperChar(s[i]))
  }

  /** Lower-casing twice is lower-casing once. */
  lemma LowerIdempotent(s: string)
    ensures Lower(Lower(s)) == Lower(s)
  {
    assert forall i :: 0 <= i < |s| ==> LowerChar(LowerChar(s[i])) == LowerChar(s[i]);
  }

  /** `str.replace(a, b)` for single characters `a` and `b`. */
  function ReplaceChar(s: string, a: char, b: char): (r: string)
    ensures |r| == |s|
    ensures forall i :: 0 <= i < |s| ==> r[i] == (if s[i] == a then b else s[i])
  {
    if s == [] then [] else [if s[0] == a then b else s[0]] + ReplaceChar(s[1..], a, b)
  }

  /** `s.startswith(p)`. */
  predicate StartsWith(s: string, p: string) {
    |p| <= |s| && s[..|p|] == p
  }

  /** `sub in s`: some position of `s` starts with `sub`. */
  predicate Contains(s: string, sub: string)
    decreases |s|
  {
    StartsWith(s, sub) || (|s| > 0 && Contains(s[1..], sub))
  }

  /** A string lacking the first character of `sub` does not contain `sub`. */
  lemma {:induction false} NotContainedWithoutFirst(s: string, sub: string)
    requires sub != [] && sub[0] !in s
    ensures !Contains(s, sub)
    decreases |s|
  {
    if |s| > 0 {
      NotContainedWithoutFirst(s[1..], sub);
    }
  }

  /** Index of the first occurrence of `c` in `s`, or `|s|` when there is none. */
  function IndexOf(s: string, c: char): (k: nat)
    ensures k <= |s|
    ensures k < |s| ==> s[k] == c
    ensures forall j :: 0 <= j < k ==> s[j] != c
  {
    if s == [] then 0 else if s[0] == c then 0 else 1 + IndexOf(s[1..], c)
  }

  /** `s.split(c)` for a one-character separator: never empty. */
  function Split(s: string, c: char): (parts: seq<string>)
    ensures |parts| >= 1
    ensures forall k :: 0 <= k < |parts| ==> c !in parts[k]
    decreases |s|
  {
    var k := IndexOf(s, c);
    if k == |s| then [s] else [s[..k]] + Split(s[k + 1..], c)
  }

  /** A string holding the separator splits into at least two pieces, the first one the text before it. */
  lemma SplitAtSeparator(s: string, c: char)
    requires c in s
    ensures |Split(s, c)| >= 2
    ensures Split(s, c)[0] == Before(s, c)
  {
    var k := IndexOf(s, c);
    assert s[k] == c;
  }

  /** The inverse of Split: `c.join(parts)`. */
  function Join(parts: seq<string>, c: char): string {
    if |parts| == 0 then [] else if |parts| == 1 then parts[0]
    else parts[0] + [c] + Join(parts[1..], c)
  }

  /** Joining the pieces again gives back the original string. */
  lemma {:induction false} JoinSplit(s: string, c: char)
    ensures Join(Split(s, c), c) == s
    decreases |s|
  {
    var k := IndexOf(s, c);
    if k < |s| {
      var rest := Split(s[k + 1..], c);
      JoinSplit(s[k + 1..], c);
      var parts := [s[..k]] + rest;
      assert Split(s, c) == parts;
      assert parts[1..] == rest;
      assert Join(parts, c) == s[..k] + [c] + Join(rest, c);
      assert s == s[..k] + [c] + s[k + 1..];
    }
  }

  /** `s.partition(c)[2]` when `c` occurs: the text after the first `c`. */
  function After(s: string, c: char): string {
    var k := IndexOf(s, c);
    if k < |s| then s[k + 1..] else []
  }

  /** `s.partition(c)[0]`: the text before the first `c`. */
  function Before(s: string, c: char): string {
    s[..IndexOf(s, c)]
  }

  /** The first index at or after `i` whose character is not in the class `p`. */
  function SkipWhile(s: string, i: nat, p: char -> bool): (j: nat)
    requires i <= |s|
    ensures i <= j <= |s|
    ensures forall k :: i <= k < j ==> p(s[k])
    ensures j < |s| ==> !p(s[j])
    decreases |s| - i
  {
    if i == |s| || !p(s[i]) then i else SkipWhile(s, i + 1, p)
  }

  /** A run of class `p` from `i` to `j` that stops at `j` is what SkipWhile finds. */
  lemma {:induction false} SkipWhileReaches(s: string, i: nat, j: nat, p: char -> bool)
    requires i <= j <= |s|
    requires forall k :: i <= k < j ==> p(s[k])
    requires j < |s| ==> !p(s[j])
    ensures SkipWhile(s, i, p) == j
    decreases j - i
  {
    if i < j { SkipWhileReaches(s, i + 1, j, p); }
  }

  /** The end of the longest run of class `p` starting at `i`, if that run is not empty. */
  function RunAt(s: string, i: nat, p: char -> bool): (r: Option<nat>)
    ensures r.Some? ==> i < r.value <= |s| && (forall k :: i <= k < r.value ==> p(s[k])) && (r.value < |s| ==> !p(s[r.value]))
    ensures r.None? ==> i >= |s| || !p(s[i])
  {
    if i < |s| && p(s[i]) then Some(SkipWhile(s, i, p)) else None
  }

  function StripLeft(s: string): (r: string)
    ensures |r| <= |s| && r == s[|s| - |r|..]
    ensures r != [] ==> !IsSpace(r[0])
    ensures forall k :: 0 <= k < |s| - |r| ==> IsSpace(s[k])
  {
    if s != [] && IsSpace(s[0]) then StripLeft(s[1..]) else s
  }

  function StripRight(s: string): (r: string)
    ensures |r| <= |s| && r == s[..|r|]
    ensures r != [] ==> !IsSpace(r[|r| - 1])
    ensures forall k :: |r| <= k < |s| ==> IsSpace(s[k])
  {
    if s != [] && IsSpace(s[|s| - 1]) then StripRight(s[..|s| - 1]) else s
  }

  /** `s.strip()`: leading and trailing whitespace removed, nothing else. */
  function Strip(s: string): (r: string)
    ensures r != [] ==> !IsSpace(r[0]) && !IsSpace(r[|r| - 1])
    ensures |r| <= |s|
    ensures exists i, j :: 0 <= i <= j <= |s| && r == s[i..j]
              && (forall k :: 0 <= k < i ==> IsSpace(s[k]))
              && (forall k :: j <= k < |s| ==> IsSpace(s[k]))
  {
    var l := StripLeft(s);
    var r := StripRight(l);
    CutBetween(s, l, r);
    r
  }

  /**
   * Where Strip cuts: a prefix `r` of a suffix `l` of `s`, with whitespace
   * before `l` and after `r`, is the slice between the leading and the
   * trailing runs of whitespace.
   */
  lemma CutBetween(s: string, l: string, r: string)
    requires |l| <= |s| && l == s[|s| - |l|..] && forall k :: 0 <= k < |s| - |l| ==> IsSpace(s[k])
    requires |r| <= |l| && r == l[..|r|] && forall k :: |r| <= k < |l| ==> IsSpace(l[k])
    ensures exists i, j :: 0 <= i <= j <= |s| && r == s[i..j]
              && (forall k :: 0 <= k < i ==> IsSpace(s[k]))
              && (forall k :: j <= k < |s| ==> IsSpace(s[k]))
  {
    var i := |s| - |l|;
    var j := i + |r|;
    forall k | j <= k < |s| ensures IsSpace(s[k]) {
      assert s[k] == l[k - i];
    }
    assert r == s[i..j];
  }

  /** A string that neither starts nor ends with whitespace is its own strip. */
  lemma StripUnspaced(s: string)
    requires s != [] ==> !IsSpace(s[0]) && !IsSpace(s[|s| - 1])
    ensures Strip(s) == s
  {
  }

  function DigitValue(c: char): nat {
    if IsDigit(c) then c as int - '0' as int
    else if 'a' <= c <= 'f' then c as int - 'a' as int + 10
    else if 'A' <= c <= 'F' then c as int - 'A' as int + 10
    else 0
  }

  /** `int(s, 16)` for a string of hex digits. */
  function ParseHex(s: string): nat {
    if s == [] then 0 else ParseHex(s[..|s| - 1]) * 16 + DigitValue(s[|s| - 1])
  }

  /** `int(s)` for a string of decimal digits. */
  function ParseDecimal(s: string): nat {
    if s == [] then 0 else ParseDecimal(s[..|s| - 1]) * 10 + DigitValue(s[|s| - 1])
  }

  /** Two hex digits (the regex `[0-9A-Fa-f]{2}`) always denote a byte. */
  lemma TwoHexDigitsAreAByte(s: string)
    requires |s| == 2 && IsHexDigit(s[0]) && IsHexDigit(s[1])
    ensures ParseHex(s) < 256
  {
    assert s[..1][..0] == [];
    assert ParseHex(s[..1]) == DigitValue(s[0]);
    assert ParseHex(s) == DigitValue(s[0]) * 16 + DigitValue(s[1]);
  }

  /** `str(n)` for a natural number. */
  function NatToString(n: nat): (r: string)
    ensures |r| >= 1
    ensures forall k :: 0 <= k < |r| ==> IsDigit(r[k])
  {
    if n < 10 then [('0' as int + n) as char]
    else NatToString(n / 10) + [('0' as int + n % 10) as char]
  }

  /** `str(i)` for any integer. */
  function IntToString(i: int): (r: string)
    ensures forall k :: 0 <= k < |r| ==> IsDigit(r[k]) || r[k] == '-'
  {
    if i < 0 then "-" + NatToString(-i) else NatToString(i)
  }

  /** `int(str(n)) == n`: the decimal rendering is read back exactly. */
  lemma {:induction false} ParseDecimalNatToString(n: nat)
    ensures ParseDecimal(NatToString(n)) == n
  {
    if n >= 10 {
      ParseDecimalNatToString(n / 10);
      var s := NatToString(n);
      assert s[..|s| - 1] == NatToString(n / 10);
    }
  }
}
