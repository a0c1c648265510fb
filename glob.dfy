/**
 * The shell-style patterns of Python's `fnmatch`, as used by
 * monitor_control/window_monitor.py and monitor_control/profile_manager.py:
 * `*` matches any run of characters, `?` any one character, and every other
 * character itself.  The whole name must match.
 */
module Glob {
  import Text

  predicate Matches(name: string, pattern: string)
    decreases |name| + |pattern|
  {
    if pattern == [] then name == []
    else if pattern[0] == '*' then
      Matches(name, pattern[1..]) || (name != [] && Matches(name[1..], pattern))
    else
      name != [] && (pattern[0] == '?' || pattern[0] == name[0]) && Matches(name[1..], pattern[1..])
  }

  /** `fnmatch(name.lower(), pattern.lower())`, the form the core always uses. */
  predicate MatchesIgnoringCase(name: string, pattern: string) {
    Matches(Text.Lower(name), Text.Lower(pattern))
  }

  predicate IsLiteral(pattern: string) {
    forall i :: 0 <= i < |pattern| ==> pattern[i] != '*' && pattern[i] != '?'
  }

  /** The pattern `*` accepts every name. */
  lemma {:induction false} StarMatchesEverything(name: string)
    ensures Matches(name, "*")
    decreases |name|
  {
    assert "*"[1..] == [];
    if name != [] {
      StarMatchesEverything(name[1..]);
    }
  }

  /** A pattern without wildcards accepts exactly itself. */
  lemma {:induction false} LiteralMatchesOnlyItself(name: string, pattern: string)
    requires IsLiteral(pattern)
    ensures Matches(name, pattern) <==> name == pattern
    decreases |pattern|
  {
    if pattern != [] && name != [] {
      assert IsLiteral(pattern[1..]) by {
        forall i | 0 <= i < |pattern| - 1 ensures pattern[1..][i] != '*' && pattern[1..][i] != '?' {
          assert pattern[1..][i] == pattern[i + 1];
        }
      }
      LiteralMatchesOnlyItself(name[1..], pattern[1..]);
      if name[1..] == pattern[1..] && name[0] == pattern[0] {
        assert name == [name[0]] + name[1..] && pattern == [pattern[0]] + pattern[1..];
      }
    }
  }

  /** `prefix*` accepts exactly the names that start with the literal `prefix`. */
  lemma {:induction false} PrefixStarMatchesPrefixes(name: string, prefix: string)
    requires IsLiteral(prefix)
    ensures Matches(name, prefix + "*") <==> Text.StartsWith(name, prefix)
    decreases |prefix|
  {
    if prefix == [] {
      assert prefix + "*" == "*";
      StarMatchesEverything(name);
    } else {
      assert (prefix + "*")[0] == prefix[0];
      assert (prefix + "*")[1..] == prefix[1..] + "*";
      assert IsLiteral(prefix[1..]) by {
        forall i | 0 <= i < |prefix| - 1 ensures prefix[1..][i] != '*' && prefix[1..][i] != '?' {
          assert prefix[1..][i] == prefix[i + 1];
        }
      }
      if name != [] {
        PrefixStarMatchesPrefixes(name[1..], prefix[1..]);
        if Text.StartsWith(name, prefix) {
          assert name[1..][..|prefix| - 1] == name[..|prefix|][1..];
        }
        if name[0] == prefix[0] && Text.StartsWith(name[1..], prefix[1..]) {
          assert name[..|prefix|] == [name[0]] + name[1..][..|prefix| - 1];
        }
      }
    }
  }

  /** Lower-casing the pattern again changes nothing: matching ignores case once and for all. */
  lemma PatternCaseIsIrrelevant(name: string, pattern: string)
    ensures MatchesIgnoringCase(name, Text.Lower(pattern)) == MatchesIgnoringCase(name, pattern)
  {
    Text.LowerIdempotent(pattern);
  }
}
