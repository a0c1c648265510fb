/**
 * monitor_control/window_monitor.py: the description of the focused window
 * and the change detection of the three active-window monitors (X11 events,
 * xdotool polling, Wayland polling).  Querying the window system itself is
 * outside the model: each poll's answer is an input.
 */
module WindowMonitor {
  import opened Wrappers
  import Text
  import Glob

  /** x, y, width, height in desktop pixels. */
  datatype Rect = Rect(x: int, y: int, width: int, height: int)

  /** `WindowInfo`: is_maximized is already "maximized vertically and horizontally". */
  datatype WindowInfo = WindowInfo(
    windowId: int,
    title: string,
    windowClass: string,
    instanceName: string,
    pid: int,
    isFullscreen: bool,
    isMaximized: bool,
    geometry: Rect)

  /** `WindowInfo.matches_pattern`: case-insensitive glob on class, instance or title. */
  predicate MatchesPattern(w: WindowInfo, pattern: string) {
    Glob.MatchesIgnoringCase(w.windowClass, pattern)
    || Glob.MatchesIgnoringCase(w.instanceName, pattern)
    || Glob.MatchesIgnoringCase(w.title, pattern)
  }

  /** The pattern `*` selects every window. */
  lemma StarSelectsEveryWindow(w: WindowInfo)
    ensures MatchesPattern(w, "*")
  {
    assert Text.Lower("*") == "*";
    Glob.StarMatchesEverything(Text.Lower(w.windowClass));
  }

  /**
   * A pattern without wildcards selects a window exactly when, ignoring case,
   * it spells the window's class, instance name or title.
   */
  lemma LiteralPatternSelectsByName(w: WindowInfo, pattern: string)
    requires Glob.IsLiteral(pattern)
    ensures MatchesPattern(w, pattern) <==>
      Text.Lower(pattern) in {Text.Lower(w.windowClass), Text.Lower(w.instanceName), Text.Lower(w.title)}
  {
    var p := Text.Lower(pattern);
    assert Glob.IsLiteral(p) by {
      forall i | 0 <= i < |p| ensures p[i] != '*' && p[i] != '?' {
        assert p[i] == Text.LowerChar(pattern[i]);
      }
    }
    Glob.LiteralMatchesOnlyItself(Text.Lower(w.windowClass), p);
    Glob.LiteralMatchesOnlyItself(Text.Lower(w.instanceName), p);
    Glob.LiteralMatchesOnlyItself(Text.Lower(w.title), p);
  }

  /**
   * What a monitor remembers of the last window it reported.  The X11 and
   * xdotool monitors identify a window by its id; the Wayland monitor by
   * its class and the first 50 characters of its title.
   */
  datatype Identity = ById(id: int) | ByKey(key: string)

  datatype Fingerprint = Fingerprint(identity: Identity, fullscreen: bool, maximized: bool)

  /** Python's `s[:n]`. */
  function Take(s: string, n: nat): (r: string)
    ensures |r| <= n && Text.StartsWith(s, r)
    ensures |s| <= n ==> r == s
  {
    if |s| <= n then s else s[..n]
  }

  /** The Wayland key `f"{window_class}:{title[:50]}"`. */
  function WaylandKey(w: WindowInfo): string {
    w.windowClass + ":" + Take(w.title, 50)
  }

  function FingerprintOf(keyed: bool, w: WindowInfo): (f: Fingerprint)
    ensures f.fullscreen == w.isFullscreen && f.maximized == w.isMaximized
    ensures f.identity == if keyed then ByKey(WaylandKey(w)) else ById(w.windowId)
  {
    Fingerprint(if keyed then ByKey(WaylandKey(w)) else ById(w.windowId), w.isFullscreen, w.isMaximized)
  }

  /**
   * What two polls are told apart by: by id, X11 and xdotool see a change of
   * window, of fullscreen or of maximized state; by key, Wayland sees none
   * between two windows of one class whose titles agree in their first 50
   * characters and whose states agree.
   */
  lemma SameFingerprint(w1: WindowInfo, w2: WindowInfo)
    ensures FingerprintOf(false, w1) == FingerprintOf(false, w2)
            <==> w1.windowId == w2.windowId && w1.isFullscreen == w2.isFullscreen && w1.isMaximized == w2.isMaximized
    ensures w1.windowClass == w2.windowClass && Take(w1.title, 50) == Take(w2.title, 50)
            && w1.isFullscreen == w2.isFullscreen && w1.isMaximized == w2.isMaximized
            ==> FingerprintOf(true, w1) == FingerprintOf(true, w2)
    ensures FingerprintOf(true, w1) == FingerprintOf(true, w2) ==> w1.isFullscreen == w2.isFullscreen && w1.isMaximized == w2.isMaximized
  {
  }

  /** What a freshly created monitor remembers: id 0 (or key ""), not fullscreen, not maximized. */
  function InitialFingerprint(keyed: bool): Fingerprint {
    Fingerprint(if keyed then ByKey("") else ById(0), false, false)
  }

  /** One poll: the new memory, and the window handed to the callback if it changed. */
  function Observe(keyed: bool, last: Fingerprint, w: Option<WindowInfo>): (r: (Fingerprint, Option<WindowInfo>))
    ensures r.1.Some? <==> w.Some? && FingerprintOf(keyed, w.value) != last
    ensures r.1.Some? ==> r.1 == w && r.0 == FingerprintOf(keyed, w.value)
    ensures r.1.None? ==> r.0 == last
  {
    if w.Some? && FingerprintOf(keyed, w.value) != last then (FingerprintOf(keyed, w.value), w)
    else (last, None)
  }

  /** A run of polls, left to right: final memory and the windows reported, in order. */
  function Replay(keyed: bool, start: Fingerprint, ws: seq<Option<WindowInfo>>): (Fingerprint, seq<WindowInfo>)
  {
    if ws == [] then (start, [])
    else
      var (mid, out) := Replay(keyed, start, ws[..|ws| - 1]);
      var (next, seen) := Observe(keyed, mid, ws[|ws| - 1]);
      (next, out + if seen.Some? then [seen.value] else [])
  }

  /**
   * Change detection never reports the same state twice in a row: any two
   * consecutive reported windows differ in identity, fullscreen or
   * maximized state, the first report differs from the starting memory, and
   * the memory is the fingerprint of the last report.
   */
  lemma {:induction false} ReplayNeverRepeats(keyed: bool, start: Fingerprint, ws: seq<Option<WindowInfo>>)
    ensures var (last, out) := Replay(keyed, start, ws);
      |out| <= |ws|
      && (out == [] ==> last == start)
      && (out != [] ==> last == FingerprintOf(keyed, out[|out| - 1]) && FingerprintOf(keyed, out[0]) != start)
      && forall j :: 0 <= j < |out| - 1 ==> FingerprintOf(keyed, out[j]) != FingerprintOf(keyed, out[j + 1])
  {
    if ws != [] {
      ReplayNeverRepeats(keyed, start, ws[..|ws| - 1]);
    }
  }

  /**
   * The Wayland monitor cannot tell apart two windows of the same class
   * whose titles agree on their first 50 characters and whose states agree.
   */
  lemma KeyedIgnoresLongTitleTail(w1: WindowInfo, w2: WindowInfo)
    requires w1.windowClass == w2.windowClass && w1.isFullscreen == w2.isFullscreen && w1.isMaximized == w2.isMaximized
    requires |w1.title| >= 50 && |w2.title| >= 50 && w1.title[..50] == w2.title[..50]
    ensures Observe(true, FingerprintOf(true, w1), Some(w2)).1 == None
  {
  }

  /**
   * The state of one active-window monitor (`WindowMonitorX11`,
   * `WindowMonitorXdotool` or `WindowMonitorWayland`): its memory of the
   * last reported window, whether a callback is registered, and the windows
   * handed to that callback so far.
   */
  class ActiveWindowTracker {
    const keyed: bool
    var last: Fingerprint
    var hasCallback: bool
    /** `_running`: whether the monitoring thread is meant to run. */
    var running: bool
    var delivered: seq<WindowInfo>

    constructor(keyed: bool)
      ensures this.keyed == keyed && last == InitialFingerprint(keyed)
      ensures !hasCallback && !running && delivered == []
    {
      this.keyed := keyed;
      last := InitialFingerprint(keyed);
      hasCallback := false;
      running := false;
      delivered := [];
    }

    /**
     * `start_monitoring(callback)`: ignored while monitoring; otherwise the
     * observer is registered and monitoring starts (the thread is left out).
     * The fingerprint memory is kept either way.
     */
    method StartMonitoring()
      modifies this`hasCallback, this`running
      ensures running
      ensures old(running) ==> hasCallback == old(hasCallback)
      ensures !old(running) ==> hasCallback
    {
      if running {
        return;
      }
      hasCallback := true;
      running := true;
    }

    /** `stop_monitoring`: monitoring stops; the observer and the memory stay. */
    method StopMonitoring()
      modifies this`running
      ensures !running
    {
      running := false;
    }

    /** `_check_window_change` / one iteration of `_monitor_loop`. */
    method CheckWindowChange(w: Option<WindowInfo>) returns (changed: bool)
      modifies this`last, this`delivered
      ensures changed <==> w.Some? && FingerprintOf(keyed, w.value) != old(last)
      ensures (last, if changed then w else None) == Observe(keyed, old(last), w)
      ensures hasCallback == old(hasCallback)
      ensures delivered == if changed && hasCallback then old(delivered) + [w.value] else old(delivered)
    {
      changed := false;
      if w.Some? {
        var f := FingerprintOf(keyed, w.value);
        if f != last {
          last := f;
          changed := true;
          if hasCallback {
            delivered := delivered + [w.value];
          }
        }
      }
    }

    /** The polling loop over a finite run of answers from the window system. */
    method Poll(ws: seq<Option<WindowInfo>>)
      modifies this`last, this`delivered
      ensures last == Replay(keyed, old(last), ws).0
      ensures hasCallback == old(hasCallback)
      ensures delivered == old(delivered) + if hasCallback then Replay(keyed, old(last), ws).1 else []
    {
      var i := 0;
      while i < |ws|
        invariant 0 <= i <= |ws|
        invariant last == Replay(keyed, old(last), ws[..i]).0
        invariant hasCallback == old(hasCallback)
        invariant delivered == old(delivered) + if hasCallback then Replay(keyed, old(last), ws[..i]).1 else []
      {
        assert ws[..i + 1][..i] == ws[..i];
        var _ := CheckWindowChange(ws[i]);
        i := i + 1;
      }
      assert ws[..|ws|] == ws;
    }
  }
}
