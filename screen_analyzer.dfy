/**
 * `ScreenAnalyzer` (monitor_control/screen_analyzer.py): the suggestion of
 * monitor brightness and contrast from what the screen shows, the reuse of
 * the last analysis while sampled pixels do not change, the failover between
 * screen-capture tools, and the small clamps around them.
 *
 * The pixel statistics numpy computes, the pixel-sample hash and every
 * capture tool are oracles: `Stats` and the hash are given per image, and a
 * tool's outcome is `camera(tool, region, n)` for the n-th capture attempt.
 */
module Screen {
  import opened Wrappers

  /** Python's `int()` on a float: truncation toward zero. */
  function Trunc(x: real): (r: int)
    ensures 0.0 <= x ==> 0 <= r && r as real <= x < r as real + 1.0
    ensures x < 0.0 ==> r <= 0 && r as real - 1.0 < x <= r as real
  {
    if x >= 0.0 then x.Floor else -((-x).Floor)
  }

  /** The statistics `analyze_image` computes from the grey-scale pixels. */
  datatype Stats = Stats(meanBrightness: real, brightnessStd: real, darkRatio: real, brightRatio: real)

  /** `ScreenAnalysis`. */
  datatype ScreenAnalysis = ScreenAnalysis(
    meanBrightness: real,
    brightnessStd: real,
    darkRatio: real,
    brightRatio: real,
    isMostlyDark: bool,
    isMostlyBright: bool,
    suggestedContrast: int,
    suggestedBrightness: int)

  /** The constructor's tuning parameters. */
  datatype Settings = Settings(
    darkThreshold: real,
    brightThreshold: real,
    minContrast: int,
    maxContrast: int,
    minBrightness: int,
    maxBrightness: int,
    smoothing: real)

  const DefaultSettings: Settings := Settings(0.3, 0.7, 30, 70, 20, 80, 0.3)

  predicate MostlyDark(s: Stats) {
    s.darkRatio > 0.6 || s.meanBrightness < 0.35
  }

  predicate MostlyBright(s: Stats) {
    s.brightRatio > 0.6 || s.meanBrightness > 0.65
  }

  /** The contrast aimed at before smoothing: dark content first, then bright, then the inverse map. */
  function ContrastBase(s: Stats, minC: int, maxC: int): real {
    if MostlyDark(s) then (maxC - 10) as real
    else if MostlyBright(s) then (minC + 10) as real
    else maxC as real - s.meanBrightness * (maxC - minC) as real
  }

  /** The brightness aimed at before smoothing: the mean mapped inversely onto the range. */
  function BrightnessBase(mean: real, minB: int, maxB: int): real {
    maxB as real - mean * (maxB - minB) as real
  }

  /** `max(lo, min(hi, int(smoothing * last + (1 - smoothing) * base)))`. */
  function Suggest(smoothing: real, last: real, base: real, lo: int, hi: int): (r: int)
    ensures lo <= r
    ensures lo <= hi ==> r <= hi
    ensures var v := Trunc(smoothing * last + (1.0 - smoothing) * base);
            && (lo <= v <= hi ==> r == v)
            && (v < lo ==> r == lo)
            && (hi < v && lo <= hi ==> r == hi)
  {
    var v := Trunc(smoothing * last + (1.0 - smoothing) * base);
    var capped := if hi <= v then hi else v;
    if lo >= capped then lo else capped
  }

  /**
   * `analyze_image` on an image with the given statistics, the previous
   * suggestions being `lastC` and `lastB`: both suggestions lie in their
   * configured range.
   */
  function Analyze(s: Stats, cfg: Settings, lastC: real, lastB: real): (a: ScreenAnalysis)
    ensures cfg.minContrast <= a.suggestedContrast
    ensures cfg.minContrast <= cfg.maxContrast ==> a.suggestedContrast <= cfg.maxContrast
    ensures cfg.minBrightness <= a.suggestedBrightness
    ensures cfg.minBrightness <= cfg.maxBrightness ==> a.suggestedBrightness <= cfg.maxBrightness
    ensures a.isMostlyDark == MostlyDark(s) && a.isMostlyBright == MostlyBright(s)
    ensures a.meanBrightness == s.meanBrightness && a.brightnessStd == s.brightnessStd
    ensures a.darkRatio == s.darkRatio && a.brightRatio == s.brightRatio
  {
    var contrast := Suggest(cfg.smoothing, lastC, ContrastBase(s, cfg.minContrast, cfg.maxContrast),
                            cfg.minContrast, cfg.maxContrast);
    var brightness := Suggest(cfg.smoothing, lastB, BrightnessBase(s.meanBrightness, cfg.minBrightness, cfg.maxBrightness),
                              cfg.minBrightness, cfg.maxBrightness);
    ScreenAnalysis(s.meanBrightness, s.brightnessStd, s.darkRatio, s.brightRatio,
                   MostlyDark(s), MostlyBright(s), contrast, brightness)
  }

  /** Content that is both mostly dark and mostly bright is treated as dark. */
  lemma DarkTakesPrecedence(s: Stats, minC: int, maxC: int)
    requires MostlyDark(s)
    ensures ContrastBase(s, minC, maxC) == (maxC - 10) as real
  {
  }

  /**
   * The contrast base of content that is neither mostly dark nor mostly
   * bright lies strictly inside the range, between its 35% and 65% points
   * counted down from the maximum.
   */
  lemma MiddleContrastBaseInRange(s: Stats, minC: int, maxC: int)
    requires !MostlyDark(s) && !MostlyBright(s)
    requires minC <= maxC
    ensures maxC as real - 0.65 * (maxC - minC) as real <= ContrastBase(s, minC, maxC)
    ensures ContrastBase(s, minC, maxC) <= maxC as real - 0.35 * (maxC - minC) as real
  {
    var range := (maxC - minC) as real;
    assert 0.35 <= s.meanBrightness <= 0.65;
    assert 0.35 * range <= s.meanBrightness * range <= 0.65 * range;
  }

  /**
   * The brightness base never rises when the screen gets brighter, and a
   * mean between black and white lands between the limits: black gives the
   * maximum, white the minimum.
   */
  lemma BrightnessBaseIsInverse(m1: real, m2: real, minB: int, maxB: int)
    requires minB <= maxB
    ensures m1 <= m2 ==> BrightnessBase(m2, minB, maxB) <= BrightnessBase(m1, minB, maxB)
    ensures 0.0 <= m1 <= 1.0 ==> minB as real <= BrightnessBase(m1, minB, maxB) <= maxB as real
    ensures BrightnessBase(0.0, minB, maxB) == maxB as real
    ensures BrightnessBase(1.0, minB, maxB) == minB as real
  {
    var range := (maxB - minB) as real;
    if m1 <= m2 {
      assert m1 * range <= m2 * range;
    }
    if 0.0 <= m1 <= 1.0 {
      assert 0.0 <= m1 * range;
      assert (1.0 - m1) * range >= 0.0;
    }
  }

  /** `(x, y, width, height)`. */
  datatype Region = Region(x: int, y: int, width: int, height: int)

  /** A PIL crop box `(left, top, right, bottom)`. */
  datatype Box = Box(left: int, top: int, right: int, bottom: int)

  /** A captured image: a screenshot of the given size, or a crop of one. */
  datatype Image = Screenshot(width: nat, height: nat, content: int) | Crop(source: Image, box: Box)

  /** `min(scale_x, scale_y)` when the region reaches past the image. */
  function CropScale(imgW: nat, imgH: nat, r: Region): (scale: real)
    requires r.x + r.width > imgW || r.y + r.height > imgH
    ensures 0.0 <= scale <= 1.0
    ensures scale < 1.0
  {
    var scaleX := if r.x + r.width > imgW then imgW as real / (r.x + r.width) as real else 1.0;
    var scaleY := if r.y + r.height > imgH then imgH as real / (r.y + r.height) as real else 1.0;
    ScaleBelowOne(imgW, r.x + r.width);
    ScaleBelowOne(imgH, r.y + r.height);
    if scaleX <= scaleY then scaleX else scaleY
  }

  lemma ScaleBelowOne(size: nat, reach: int)
    ensures reach > size ==> 0.0 <= size as real / reach as real < 1.0
  {
    if reach > size {
      var q := size as real / reach as real;
      assert q * reach as real == size as real;
    }
  }

  /**
   * The rectangle `_crop_shared_capture` cuts from an `imgW` by `imgH`
   * capture, `None` meaning that the whole capture is returned.  A region
   * that fits is cut exactly; one that reaches past the capture (which was
   * taken at a reduced size) is scaled down by the worse of the two ratios,
   * truncated and clamped to the right and bottom edges, and given up when
   * nothing is left.
   */
  function CropBox(imgW: nat, imgH: nat, r: Region): (b: Option<Box>)
    ensures r.x + r.width <= imgW && r.y + r.height <= imgH ==>
              b == Some(Box(r.x, r.y, r.x + r.width, r.y + r.height))
    ensures !(r.x + r.width <= imgW && r.y + r.height <= imgH) && b.Some? ==>
              b.value.left < b.value.right <= imgW && b.value.top < b.value.bottom <= imgH
    ensures !(r.x + r.width <= imgW && r.y + r.height <= imgH) && b.Some? && 0 <= r.x && 0 <= r.y ==>
              0 <= b.value.left && 0 <= b.value.top
  {
    if r.x + r.width > imgW || r.y + r.height > imgH then
      var scale := CropScale(imgW, imgH, r);
      var sx, sy := Trunc(r.x as real * scale), Trunc(r.y as real * scale);
      var sw0, sh0 := Trunc(r.width as real * scale), Trunc(r.height as real * scale);
      var sw := if sw0 <= imgW - sx then sw0 else imgW - sx;
      var sh := if sh0 <= imgH - sy then sh0 else imgH - sy;
      NonNegativeScaled(r.x, scale);
      NonNegativeScaled(r.y, scale);
      if sw > 0 && sh > 0 then Some(Box(sx, sy, sx + sw, sy + sh)) else None
    else
      Some(Box(r.x, r.y, r.x + r.width, r.y + r.height))
  }

  lemma NonNegativeScaled(v: int, scale: real)
    requires 0.0 <= scale
    ensures 0 <= v ==> 0.0 <= v as real * scale
  {
  }

  /** `_crop_shared_capture` applied to a capture. */
  function CropShared(img: Image, r: Region): Image {
    var size := match img
      case Screenshot(w, h, _) => (w, h)
      case Crop(_, b) => (if b.right >= b.left then b.right - b.left else 0,
                          if b.bottom >= b.top then b.bottom - b.top else 0);
    match CropBox(size.0, size.1, r)
    case Some(b) => Crop(img, b)
    case None => img
  }

  /** The capture tools, in the order they are tried. */
  datatype CaptureMethod = Mss | Gdk | GnomeScreenshot | Scrot | ImportTool | Flameshot | Grim | Spectacle

  function Methods(wayland: bool): (ms: seq<CaptureMethod>)
    ensures |ms| > 0
  {
    if wayland then [GnomeScreenshot, Flameshot, Grim, Spectacle]
    else [Mss, Gdk, GnomeScreenshot, Scrot, ImportTool]
  }

  /**
   * The search loop of `capture_screen` over `ms` from position `i`, tool
   * `ms[k]` being attempt number `start + k`: the tool that worked with its
   * image, and the position after the last attempt made.
   */
  function Search(camera: (CaptureMethod, Option<Region>, nat) -> Option<Image>, ms: seq<CaptureMethod>,
                  region: Option<Region>, start: nat, i: nat): (r: (Option<(CaptureMethod, Image)>, nat))
    requires i <= |ms|
    ensures i <= r.1 <= |ms|
    ensures r.0.Some? ==> i < r.1 && r.0.value.0 == ms[r.1 - 1]
                          && camera(ms[r.1 - 1], region, start + r.1 - 1) == Some(r.0.value.1)
    ensures r.0.None? ==> r.1 == |ms|
    decreases |ms| - i
  {
    if i == |ms| then (None, i)
    else match camera(ms[i], region, start + i)
      case Some(img) => (Some((ms[i], img)), i + 1)
      case None => Search(camera, ms, region, start, i + 1)
  }

  /**
   * The search stops at the first tool that captures: every earlier tool in
   * the list failed, and when none works, all of them were tried and failed.
   */
  lemma {:induction false} SearchTakesFirst(camera: (CaptureMethod, Option<Region>, nat) -> Option<Image>,
                                            ms: seq<CaptureMethod>, region: Option<Region>, start: nat, i: nat)
    requires i <= |ms|
    ensures var r := Search(camera, ms, region, start, i);
            forall k :: i <= k < |ms| && (r.0.Some? ==> k < r.1 - 1) ==> camera(ms[k], region, start + k).None?
    decreases |ms| - i
  {
    if i < |ms| && camera(ms[i], region, start + i).None? {
      SearchTakesFirst(camera, ms, region, start, i + 1);
    }
  }

  /** `set_interval`: at least 2.5 s under Wayland, at least 0.5 s under X11. */
  function IntervalFloor(wayland: bool, interval: real): (r: real)
    ensures r >= interval
    ensures r >= (if wayland then 2.5 else 0.5)
    ensures r == interval || r == (if wayland then 2.5 else 0.5)
  {
    var floor := if wayland then 2.5 else 0.5;
    if floor >= interval then floor else interval
  }

  /** What `analyze_screen` remembers between frames. */
  datatype FrameCache = FrameCache(lastHash: Option<int>, lastAnalysis: Option<ScreenAnalysis>, repeats: int)

  /** The cached analysis is returned for a frame whose sample hash is `h`. */
  predicate Reuses(c: FrameCache, h: Option<int>) {
    h.Some? && c.lastHash == h && c.lastAnalysis.Some? && c.repeats < 5
  }

  /** Every frame of `hs`, in turn, reuses the cached analysis. */
  predicate AllReused(c: FrameCache, hs: seq<Option<int>>)
    decreases |hs|
  {
    hs == [] || (Reuses(c, hs[0]) && AllReused(c.(repeats := c.repeats + 1), hs[1..]))
  }

  /** No more than five frames in a row reuse a cached analysis. */
  lemma {:induction false} AtMostFiveReuses(c: FrameCache, hs: seq<Option<int>>)
    requires 0 <= c.repeats <= 5
    requires AllReused(c, hs)
    ensures |hs| <= 5 - c.repeats
    decreases |hs|
  {
    if hs != [] {
      assert Reuses(c, hs[0]);
      AtMostFiveReuses(c.(repeats := c.repeats + 1), hs[1..]);
    }
  }

  /** An unchanged screen does reuse the analysis until the counter reaches five. */
  lemma {:induction false} UnchangedFramesReuse(c: FrameCache, h: int)
    requires c.lastHash == Some(h) && c.lastAnalysis.Some? && 0 <= c.repeats <= 5
    ensures AllReused(c, seq(5 - c.repeats, _ => Some(h)))
    decreases 5 - c.repeats
  {
    if c.repeats < 5 {
      var hs := seq(5 - c.repeats, _ => Some(h));
      UnchangedFramesReuse(c.(repeats := c.repeats + 1), h);
      assert hs[1..] == seq(5 - (c.repeats + 1), _ => Some(h));
    }
  }

  class ScreenAnalyzer {
    const cfg: Settings
    /** `monitor_region`, from the constructor. */
    const monitorRegion: Option<Region>
    /** `_is_wayland()`: the session type read from the environment. */
    const wayland: bool
    /** `IMAGING_AVAILABLE`: PIL and numpy could be imported. */
    const imagingAvailable: bool
    /** The outcome of running a capture tool, by attempt number. */
    const camera: (CaptureMethod, Option<Region>, nat) -> Option<Image>

    var monitorIndex: int
    var running: bool
    var interval: real
    var region: Option<Region>
    var lastContrast: real
    var lastBrightness: real
    var lastImageHash: Option<int>
    var lastAnalysis: Option<ScreenAnalysis>
    var unchangedCount: int
    var cachedMethod: Option<CaptureMethod>
    var captureFailures: int
    /** The capture tools run so far, one entry per attempt. */
    var captureLog: seq<CaptureMethod>

    function Cache(): FrameCache
      reads this`lastImageHash, this`lastAnalysis, this`unchangedCount
    {
      FrameCache(lastImageHash, lastAnalysis, unchangedCount)
    }

    /**
     * The counters stay in range: at most five reuses are counted, fewer
     * than three cached-tool failures are kept, and none without a cached
     * tool, which is always one of this session's tools.
     */
    ghost predicate Valid()
      reads this
    {
      && 0 <= unchangedCount <= 5
      && 0 <= captureFailures < 3
      && (cachedMethod.None? ==> captureFailures == 0)
      && (cachedMethod.Some? ==> cachedMethod.value in Methods(wayland))
    }

    constructor (cfg: Settings, monitorIndex: int, monitorRegion: Option<Region>, wayland: bool,
                 imagingAvailable: bool, camera: (CaptureMethod, Option<Region>, nat) -> Option<Image>)
      ensures Valid()
      ensures this.cfg == cfg && this.monitorIndex == monitorIndex && this.monitorRegion == monitorRegion
      ensures this.wayland == wayland && this.imagingAvailable == imagingAvailable && this.camera == camera
      ensures !running && interval == 5.0 && region == None
      ensures lastContrast == (cfg.minContrast + cfg.maxContrast) as real / 2.0
      ensures lastBrightness == (cfg.minBrightness + cfg.maxBrightness) as real / 2.0
      ensures lastImageHash == None && lastAnalysis == None && unchangedCount == 0
      ensures cachedMethod == None && captureFailures == 0 && captureLog == []
    {
      this.cfg := cfg;
      this.monitorIndex := monitorIndex;
      this.monitorRegion := monitorRegion;
      this.wayland := wayland;
      this.imagingAvailable := imagingAvailable;
      this.camera := camera;
      running := false;
      interval := 5.0;
      region := None;
      lastContrast := (cfg.minContrast + cfg.maxContrast) as real / 2.0;
      lastBrightness := (cfg.minBrightness + cfg.maxBrightness) as real / 2.0;
      lastImageHash := None;
      lastAnalysis := None;
      unchangedCount := 0;
      cachedMethod := None;
      captureFailures := 0;
      captureLog := [];
    }

    /**
     * `analyze_image`: the suggestions of `Analyze` from the previous ones,
     * which they then replace.
     */
    method AnalyzeImage(s: Stats) returns (a: ScreenAnalysis)
      modifies this`lastContrast, this`lastBrightness
      ensures a == Analyze(s, cfg, old(lastContrast), old(lastBrightness))
      ensures lastContrast == a.suggestedContrast as real && lastBrightness == a.suggestedBrightness as real
    {
      a := Analyze(s, cfg, lastContrast, lastBrightness);
      lastContrast := a.suggestedContrast as real;
      lastBrightness := a.suggestedBrightness as real;
    }

    /** The whole effect of the tool search, from attempt `log0`, with no tool cached before it. */
    twostate predicate Searched(log0: seq<CaptureMethod>, failures0: int, r: Option<Region>, new img: Option<Image>)
      reads this`cachedMethod, this`captureFailures, this`captureLog
    {
      var t := Search(camera, Methods(wayland), r, |log0|, 0);
      && captureLog == log0 + Methods(wayland)[..t.1]
      && captureFailures == failures0
      && (t.0.Some? ==> img == Some(t.0.value.1) && cachedMethod == Some(t.0.value.0))
      && (t.0.None? ==> img == None && cachedMethod == None)
    }

    /** The whole effect of `capture_screen(r)` returning `img`, `shared` being the shared capture. */
    twostate predicate Captured(r: Option<Region>, shared: Option<Image>, new img: Option<Image>)
      reads this`cachedMethod, this`captureFailures, this`captureLog
    {
      if !imagingAvailable || (wayland && shared.Some?) then
        && img == (if !imagingAvailable then None
                   else if r.Some? then Some(CropShared(shared.value, r.value)) else shared)
        && cachedMethod == old(cachedMethod) && captureFailures == old(captureFailures)
        && captureLog == old(captureLog)
      else if old(cachedMethod).Some? then
        var m := old(cachedMethod).value;
        var first := camera(m, r, |old(captureLog)|);
        if first.Some? then
          img == first && cachedMethod == old(cachedMethod) && captureFailures == 0
          && captureLog == old(captureLog) + [m]
        else if old(captureFailures) + 1 < 3 then
          img == None && cachedMethod == old(cachedMethod) && captureFailures == old(captureFailures) + 1
          && captureLog == old(captureLog) + [m]
        else
          Searched(old(captureLog) + [m], 0, r, img)
      else
        Searched(old(captureLog), old(captureFailures), r, img)
    }

    /**
     * `capture_screen`: under Wayland the shared capture is used (cropped
     * to the region) when there is one; then the cached tool, whose third
     * failure in a row drops it; then each tool of the session in turn, the
     * first that captures becoming the cached one.
     */
    method CaptureScreen(r: Option<Region>, shared: Option<Image>) returns (img: Option<Image>)
      requires Valid()
      modifies this`cachedMethod, this`captureFailures, this`captureLog
      ensures Valid()
      ensures Captured(r, shared, img)
    {
      if !imagingAvailable {
        return None;
      }
      if wayland && shared.Some? {
        if r.Some? {
          return Some(CropShared(shared.value, r.value));
        }
        return shared;
      }
      if cachedMethod.Some? {
        var m := cachedMethod.value;
        var shot := camera(m, r, |captureLog|);
        captureLog := captureLog + [m];
        if shot.Some? {
          captureFailures := 0;
          return shot;
        }
        captureFailures := captureFailures + 1;
        if captureFailures >= 3 {
          cachedMethod := None;
          captureFailures := 0;
        } else {
          return None;
        }
      }
      img := SearchMethods(r, Methods(wayland));
    }

    /** The `for method in methods` loop of `capture_screen`. */
    method SearchMethods(r: Option<Region>, methods: seq<CaptureMethod>) returns (img: Option<Image>)
      requires cachedMethod.None?
      modifies this`cachedMethod, this`captureLog
      ensures var t := Search(camera, methods, r, |old(captureLog)|, 0);
              && captureLog == old(captureLog) + methods[..t.1]
              && (t.0.Some? ==> img == Some(t.0.value.1) && cachedMethod == Some(t.0.value.0))
              && (t.0.None? ==> img == None && cachedMethod == None)
      ensures cachedMethod.Some? ==> cachedMethod.value in methods
    {
      var cam, log, start := camera, captureLog, |captureLog|;
      var i := 0;
      while i < |methods|
        invariant 0 <= i <= |methods|
        invariant log == captureLog + methods[..i]
        invariant Search(cam, methods, r, start, 0) == Search(cam, methods, r, start, i)
        decreases |methods| - i
      {
        var shot := cam(methods[i], r, start + i);
        assert methods[..i + 1] == methods[..i] + [methods[i]];
        log := log + [methods[i]];
        if shot.Some? {
          assert Search(cam, methods, r, start, i) == (Some((methods[i], shot.value)), i + 1);
          captureLog, cachedMethod := log, Some(methods[i]);
          return shot;
        }
        assert Search(cam, methods, r, start, i) == Search(cam, methods, r, start, i + 1);
        i := i + 1;
      }
      assert methods[..i] == methods;
      captureLog, img := log, None;
    }

    /** Remembering the frame `shot` in the cache, or analysing it afresh. */
    method RecordFrame(shot: Image, sample: Image -> Option<int>, measure: Image -> Stats) returns (a: Option<ScreenAnalysis>)
      requires 0 <= unchangedCount <= 5
      modifies this`lastImageHash, this`lastAnalysis, this`unchangedCount, this`lastContrast, this`lastBrightness
      ensures 0 <= unchangedCount <= 5
      ensures Analyzed(Some(shot), sample, measure, a)
    {
      var h := sample(shot);
      if h.Some? {
        if h == lastImageHash && lastAnalysis.Some? && unchangedCount < 5 {
          unchangedCount := unchangedCount + 1;
          return lastAnalysis;
        }
        lastImageHash := h;
        unchangedCount := 0;
      }
      var analysis := AnalyzeImage(measure(shot));
      lastAnalysis := Some(analysis);
      a := Some(analysis);
    }

    /** The effect of `analyze_screen` on the frame cache once the capture returned `img`. */
    twostate predicate Analyzed(new img: Option<Image>, sample: Image -> Option<int>, measure: Image -> Stats,
                                new a: Option<ScreenAnalysis>)
      reads this`lastImageHash, this`lastAnalysis, this`unchangedCount, this`lastContrast, this`lastBrightness
    {
      if img.None? then
        a == None && Cache() == old(Cache())
        && lastContrast == old(lastContrast) && lastBrightness == old(lastBrightness)
      else if Reuses(old(Cache()), sample(img.value)) then
        a == old(lastAnalysis) && Cache() == old(Cache()).(repeats := old(unchangedCount) + 1)
        && lastContrast == old(lastContrast) && lastBrightness == old(lastBrightness)
      else
        var result := Analyze(measure(img.value), cfg, old(lastContrast), old(lastBrightness));
        && a == Some(result)
        && Cache() == (if sample(img.value).Some? then FrameCache(sample(img.value), Some(result), 0)
                       else old(Cache()).(lastAnalysis := Some(result)))
        && lastContrast == result.suggestedContrast as real && lastBrightness == result.suggestedBrightness as real
    }

    /**
     * `analyze_screen`: nothing when the capture fails; the cached
     * analysis when the sample hash is unchanged, at most five times in a
     * row; otherwise a fresh analysis, the hash being remembered (and the
     * counter reset) when sampling worked.
     */
    method AnalyzeScreen(r: Option<Region>, shared: Option<Image>, sample: Image -> Option<int>, measure: Image -> Stats)
      returns (a: Option<ScreenAnalysis>, ghost img: Option<Image>)
      requires Valid()
      modifies this`cachedMethod, this`captureFailures, this`captureLog
      modifies this`lastImageHash, this`lastAnalysis, this`unchangedCount, this`lastContrast, this`lastBrightness
      ensures Valid()
      ensures Captured(r, shared, img) && Analyzed(img, sample, measure, a)
      ensures monitorIndex == old(monitorIndex) && running == old(running)
      ensures interval == old(interval) && region == old(region)
    {
      var shot := CaptureScreen(r, shared);
      img := shot;
      if shot.None? {
        a := None;
      } else {
        a := RecordFrame(shot.value, sample, measure);
      }
    }

    /**
     * `start_monitoring`: ignored while running or without imaging
     * support; otherwise the interval goes through `set_interval` and the
     * region falls back to the constructor's.
     */
    method StartMonitoring(interval: real, r: Option<Region>)
      modifies this`running, this`interval, this`region
      ensures old(running) || !imagingAvailable ==>
                running == old(running) && this.interval == old(this.interval) && region == old(region)
      ensures !old(running) && imagingAvailable ==>
                && running
                && this.interval == IntervalFloor(wayland, interval)
                && region == (if r.Some? then r else monitorRegion)
    {
      if running {
        return;
      }
      if !imagingAvailable {
        return;
      }
      SetInterval(interval);
      region := if r.Some? then r else monitorRegion;
      running := true;
    }

    /** `stop_monitoring`. */
    method StopMonitoring()
      modifies this`running
      ensures !running
    {
      running := false;
    }

    /** `set_region`. */
    method SetRegion(r: Option<Region>)
      modifies this`region
      ensures region == r
    {
      region := r;
    }

    /** `set_interval`. */
    method SetInterval(interval: real)
      modifies this`interval
      ensures this.interval == IntervalFloor(wayland, interval)
    {
      if wayland {
        this.interval := if 2.5 >= interval then 2.5 else interval;
      } else {
        this.interval := if 0.5 >= interval then 0.5 else interval;
      }
    }

    /** `set_monitor_index`: indices are 1-based, smaller ones become 1. */
    method SetMonitorIndex(index: int)
      modifies this`monitorIndex
      ensures monitorIndex >= 1
      ensures index >= 1 ==> monitorIndex == index
      ensures index < 1 ==> monitorIndex == 1
    {
      monitorIndex := Max(1, index);
    }
  }

  function Max(a: int, b: int): int {
    if a >= b then a else b
  }

  function Min(a: int, b: int): int {
    if a <= b then a else b
  }
}
