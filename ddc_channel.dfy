/**
 * The command channel of monitor_control/ddc.py: class `DDCController`
 * with its value cache, its set of unsupported codes, its capabilities
 * cache and the busy notifications around every ddcutil run.
 *
 * The ddcutil subprocess is an oracle, `device`: given the command and the
 * index of the attempt among all attempts the controller ever made, it says
 * whether that run completed (with its standard output), failed with a
 * non-zero exit status, or timed out.  `commandLog` records every attempt,
 * so its length is the next attempt's index; `busyLog` records every call
 * of the busy observer; `events` records both in the order they happened.
 */
module DdcChannel {
  import opened Wrappers
  import Text
  import Assoc
  import Ddc
  import VcpReply
  import Capabilities

  /** The ddcutil sub-commands the controller issues. */
  datatype Command =
    | GetVcpCmd(code: int)
    | SetVcpCmd(code: int, value: int, noverify: bool)
    | CapabilitiesCmd

  /** One subprocess run: `CompletedProcess`, `CalledProcessError` or `TimeoutExpired`. */
  datatype Attempt = Completed(stdout: string) | Failed | TimedOut

  /** The `DDCError`s the channel raises. */
  datatype DdcError = Unsupported | CommandFailed | Unparsed(stdout: string)

  /** `range(retry_count)` has no elements for a count of 0 or less. */
  function Budget(retryCount: int): nat {
    if retryCount > 0 then retryCount else 0
  }

  /**
   * Up to `n` attempts of `cmd`, the first of them attempt number `start`:
   * the output of the first one that completes and the number of attempts
   * made, or no output after all `n` failed.
   */
  function Tries(device: (Command, nat) -> Attempt, cmd: Command, start: nat, n: nat): (r: (Option<string>, nat))
    ensures r.1 <= n
    ensures r.0.Some? ==> 1 <= r.1 && device(cmd, start + r.1 - 1) == Completed(r.0.value)
    ensures r.0.None? ==> r.1 == n
    decreases n
  {
    if n == 0 then (None, 0)
    else match device(cmd, start)
      case Completed(out) => (Some(out), 1)
      case _ =>
        var rest := Tries(device, cmd, start + 1, n - 1);
        (rest.0, rest.1 + 1)
  }

  /** `n` copies of one command: the log of `n` attempts. */
  function Repeat(cmd: Command, n: nat): (r: seq<Command>)
    ensures |r| == n && forall k :: 0 <= k < n ==> r[k] == cmd
  {
    if n == 0 then [] else Repeat(cmd, n - 1) + [cmd]
  }

  /** Logging one more attempt extends both logs by one run. */
  lemma OneMoreAttempt(commands: seq<Command>, events: seq<Event>, cmd: Command, n: nat)
    ensures commands + Repeat(cmd, n) + [cmd] == commands + Repeat(cmd, n + 1)
    ensures events + Runs(cmd, n) + [Ran(cmd)] == events + Runs(cmd, n + 1)
  {
    assert Repeat(cmd, n + 1) == Repeat(cmd, n) + [cmd];
    assert Runs(cmd, n + 1) == Runs(cmd, n) + [Ran(cmd)];
  }

  /** When attempts `start` .. `start + j - 1` fail and the next completes, that one is taken. */
  lemma {:induction false} TriesFirstCompleted(device: (Command, nat) -> Attempt, cmd: Command, start: nat, n: nat, j: nat)
    requires j < n && device(cmd, start + j).Completed?
    requires forall k :: start <= k < start + j ==> !device(cmd, k).Completed?
    ensures Tries(device, cmd, start, n) == (Some(device(cmd, start + j).stdout), j + 1)
    decreases j
  {
    if j > 0 {
      TriesFirstCompleted(device, cmd, start + 1, n - 1, j - 1);
    }
  }

  /** When every attempt fails, all of them are made and there is no output. */
  lemma {:induction false} TriesAllFailed(device: (Command, nat) -> Attempt, cmd: Command, start: nat, n: nat)
    requires forall k :: start <= k < start + n ==> !device(cmd, k).Completed?
    ensures Tries(device, cmd, start, n) == (None, n)
    decreases n
  {
    if n > 0 {
      TriesAllFailed(device, cmd, start + 1, n - 1);
    }
  }

  /** What the observer hears about one ddcutil run: busy, then idle. */
  function BusyPair(hasCallback: bool): seq<bool> {
    if hasCallback then [true, false] else []
  }

  /** Something the controller did that an onlooker can see: an observer call or a ddcutil run. */
  datatype Event = Notified(busy: bool) | Ran(cmd: Command)

  /** `n` ddcutil runs of `cmd`. */
  function Runs(cmd: Command, n: nat): (r: seq<Event>)
    ensures |r| == n && forall k :: 0 <= k < n ==> r[k] == Ran(cmd)
  {
    if n == 0 then [] else Runs(cmd, n - 1) + [Ran(cmd)]
  }

  /** One `_run_ddcutil` call as it is seen: busy, the attempts, idle (the notifications only with an observer). */
  function RunTrace(cmd: Command, n: nat, hasCallback: bool): seq<Event> {
    if hasCallback then [Notified(true)] + Runs(cmd, n) + [Notified(false)] else Runs(cmd, n)
  }

  /** The observer calls among some events. */
  function Notifications(es: seq<Event>): seq<bool> {
    if es == [] then []
    else Notifications(es[..|es| - 1]) + (if es[|es| - 1].Notified? then [es[|es| - 1].busy] else [])
  }

  /** The ddcutil runs among some events. */
  function Commands(es: seq<Event>): seq<Command> {
    if es == [] then []
    else Commands(es[..|es| - 1]) + (if es[|es| - 1].Ran? then [es[|es| - 1].cmd] else [])
  }

  lemma {:induction false} NotificationsAppend(a: seq<Event>, b: seq<Event>)
    ensures Notifications(a + b) == Notifications(a) + Notifications(b)
    ensures Commands(a + b) == Commands(a) + Commands(b)
    decreases |b|
  {
    if b == [] {
      assert a + b == a;
    } else {
      assert (a + b)[..|a + b| - 1] == a + b[..|b| - 1];
      assert (a + b)[|a + b| - 1] == b[|b| - 1];
      NotificationsAppend(a, b[..|b| - 1]);
    }
  }

  lemma {:induction false} RunsProject(cmd: Command, n: nat)
    ensures Notifications(Runs(cmd, n)) == [] && Commands(Runs(cmd, n)) == Repeat(cmd, n)
  {
    if n > 0 {
      RunsProject(cmd, n - 1);
      NotificationsAppend(Runs(cmd, n - 1), [Ran(cmd)]);
      assert Repeat(cmd, n - 1) + [cmd] == Repeat(cmd, n);
    }
  }

  /**
   * The order `_run_ddcutil` promises: with an observer, busy(True) comes
   * before the first attempt and busy(False) after the last, with only the
   * attempts in between; and the trace is the busy pair and the attempt log
   * interleaved.
   */
  lemma RunTraceBracketsAttempts(cmd: Command, n: nat, hasCallback: bool)
    ensures var r := RunTrace(cmd, n, hasCallback);
            && (hasCallback ==>
                  |r| == n + 2 && r[0] == Notified(true) && r[n + 1] == Notified(false)
                  && forall k :: 1 <= k <= n ==> r[k] == Ran(cmd))
            && (!hasCallback ==> r == Runs(cmd, n))
            && Notifications(r) == BusyPair(hasCallback)
            && Commands(r) == Repeat(cmd, n)
  {
    RunsProject(cmd, n);
    if hasCallback {
      NotificationsAppend([Notified(true)], Runs(cmd, n));
      NotificationsAppend([Notified(true)] + Runs(cmd, n), [Notified(false)]);
      assert Notifications([Notified(true)]) == [true] by {
        assert [Notified(true)][..0] == [];
      }
      assert Notifications([Notified(false)]) == [false] by {
        assert [Notified(false)][..0] == [];
      }
      assert Commands([Notified(true)]) == [] by {
        assert [Notified(true)][..0] == [];
      }
      assert Commands([Notified(false)]) == [] by {
        assert [Notified(false)][..0] == [];
      }
    }
  }

  /** `set_vcp`'s early exit: not forced, and the cache already holds the value. */
  predicate WriteSkipped(cache: map<int, int>, code: int, value: int, force: bool) {
    !force && code in cache && cache[code] == value
  }

  /** The cache after a write that was sent: the value on success, no entry on failure. */
  function CacheAfterSend(cache: map<int, int>, code: int, value: int, ok: bool): (c: map<int, int>)
    ensures ok ==> code in c && c[code] == value
    ensures !ok ==> code !in c
    ensures forall k :: k != code ==> (k in c <==> k in cache) && (k in c ==> c[k] == cache[k])
  {
    if ok then cache[code := value] else cache - {code}
  }

  /** A failed write leaves nothing behind that would suppress the same write again. */
  lemma FailedWriteIsNotSuppressed(cache: map<int, int>, code: int, value: int)
    ensures !WriteSkipped(CacheAfterSend(cache, code, value, false), code, value, false)
  {
  }

  /** After a successful write, repeating it unforced is skipped. */
  lemma SentWriteSuppressesRepeat(cache: map<int, int>, code: int, value: int)
    ensures WriteSkipped(CacheAfterSend(cache, code, value, true), code, value, false)
  {
  }

  /** The values of feature `code` in a capabilities table, none when it is absent. */
  function FeatureValues(fs: seq<(nat, Capabilities.Feature)>, code: int): seq<(int, string)> {
    if code < 0 then []
    else match Assoc.Get(fs, code as nat)
      case None => []
      case Some(f) => f.values
  }

  /** The loop `for value, name in values.items(): color_modes[value + offset] = name`. */
  function AddModes(modes: seq<(int, string)>, values: seq<(int, string)>, offset: int): seq<(int, string)>
    decreases |values|
  {
    if values == [] then modes
    else AddModes(Assoc.Put(modes, values[0].0 + offset, values[0].1), values[1..], offset)
  }

  /** The table `get_available_color_modes` builds: the 0xDC values, then the shifted 0x14 ones. */
  function ColorModes(fs: seq<(nat, Capabilities.Feature)>): seq<(int, string)> {
    AddModes(AddModes([], FeatureValues(fs, Ddc.VcpColorPreset), 0), FeatureValues(fs, Ddc.VcpColorTemp), Ddc.PresetOffset)
  }

  /** A lookup after the loop finds the shifted value where it was listed, and the old table elsewhere. */
  lemma {:induction false} AddModesGet(modes: seq<(int, string)>, values: seq<(int, string)>, offset: int, m: int)
    requires Assoc.UniqueKeys(values)
    ensures Assoc.Get(AddModes(modes, values, offset), m)
            == if Assoc.HasKey(values, m - offset) then Assoc.Get(values, m - offset) else Assoc.Get(modes, m)
    decreases |values|
  {
    if values != [] {
      Assoc.SplitHead(values);
      AddModesGet(Assoc.Put(modes, values[0].0 + offset, values[0].1), values[1..], offset, m);
    }
  }

  /** The value table of a well-formed feature has distinct byte keys. */
  lemma FeatureValuesOk(fs: seq<(nat, Capabilities.Feature)>, code: int)
    requires forall e :: e in fs ==> Capabilities.ValuesOk(e.1)
    ensures Assoc.UniqueKeys(FeatureValues(fs, code))
    ensures forall e :: e in FeatureValues(fs, code) ==> 0 <= e.0 < 256
  {
    if code >= 0 && Assoc.Get(fs, code as nat).Some? {
      Assoc.GetIsEntry(fs, code as nat);
    }
  }

  /** Only byte values are listed in such a table. */
  lemma GetBelow(values: seq<(int, string)>, v: int)
    requires forall e :: e in values ==> 0 <= e.0 < 256
    ensures Assoc.Get(values, v).Some? ==> 0 <= v < 256
  {
    if Assoc.Get(values, v).Some? {
      Assoc.GetIsEntry(values, v);
    }
  }

  /**
   * `set_color_mode` inverts `get_available_color_modes`: the name stored
   * under a combined value is the name listed, in the capabilities, for the
   * value of the feature that `set_color_mode` writes it to; and a combined
   * value with no such listed value is not in the table.
   */
  lemma ColorModesDecode(fs: seq<(nat, Capabilities.Feature)>, m: int)
    requires forall e :: e in fs ==> Capabilities.ValuesOk(e.1)
    ensures Assoc.Get(ColorModes(fs), m) == Assoc.Get(FeatureValues(fs, Ddc.ColorTarget(m).0), Ddc.ColorTarget(m).1)
  {
    FeatureValuesOk(fs, Ddc.VcpColorPreset);
    FeatureValuesOk(fs, Ddc.VcpColorTemp);
    CombinedDecode(FeatureValues(fs, Ddc.VcpColorPreset), FeatureValues(fs, Ddc.VcpColorTemp), m);
  }

  /** The same for any two byte-valued tables of 0xDC and 0x14 values. */
  lemma CombinedDecode(dc: seq<(int, string)>, cp: seq<(int, string)>, m: int)
    requires Assoc.UniqueKeys(dc) && forall e :: e in dc ==> 0 <= e.0 < 256
    requires Assoc.UniqueKeys(cp) && forall e :: e in cp ==> 0 <= e.0 < 256
    ensures Assoc.Get(AddModes(AddModes([], dc, 0), cp, Ddc.PresetOffset), m)
            == if m >= Ddc.PresetOffset then Assoc.Get(cp, m - Ddc.PresetOffset) else Assoc.Get(dc, m)
  {
    if m >= Ddc.PresetOffset {
      CombinedDecodeHigh(dc, cp, m);
    } else {
      CombinedDecodeLow(dc, cp, m);
    }
  }

  /** At or above 0x1000 only the shifted 0x14 values can answer. */
  lemma CombinedDecodeHigh(dc: seq<(int, string)>, cp: seq<(int, string)>, m: int)
    requires Assoc.UniqueKeys(dc) && forall e :: e in dc ==> 0 <= e.0 < 256
    requires Assoc.UniqueKeys(cp)
    requires m >= Ddc.PresetOffset
    ensures Assoc.Get(AddModes(AddModes([], dc, 0), cp, Ddc.PresetOffset), m) == Assoc.Get(cp, m - Ddc.PresetOffset)
  {
    var none: seq<(int, string)> := [];
    AddModesGet(AddModes(none, dc, 0), cp, Ddc.PresetOffset, m);
    if !Assoc.HasKey(cp, m - Ddc.PresetOffset) {
      AddModesGet(none, dc, 0, m);
      GetBelow(dc, m);
    }
  }

  /** Below 0x1000 only the 0xDC values can answer. */
  lemma CombinedDecodeLow(dc: seq<(int, string)>, cp: seq<(int, string)>, m: int)
    requires Assoc.UniqueKeys(dc)
    requires Assoc.UniqueKeys(cp) && forall e :: e in cp ==> 0 <= e.0 < 256
    requires m < Ddc.PresetOffset
    ensures Assoc.Get(AddModes(AddModes([], dc, 0), cp, Ddc.PresetOffset), m) == Assoc.Get(dc, m)
  {
    var none: seq<(int, string)> := [];
    AddModesGet(AddModes(none, dc, 0), cp, Ddc.PresetOffset, m);
    GetBelow(cp, m - Ddc.PresetOffset);
    AddModesGet(none, dc, 0, m);
  }

  /** Every colour mode offered is one `set_color_mode` can write: a listed value of 0xDC or 0x14. */
  lemma OfferedModesAreWritable(fs: seq<(nat, Capabilities.Feature)>, m: int)
    requires forall e :: e in fs ==> Capabilities.ValuesOk(e.1)
    requires Assoc.HasKey(ColorModes(fs), m)
    ensures var t := Ddc.ColorTarget(m);
            && (t.0 == Ddc.VcpColorPreset || t.0 == Ddc.VcpColorTemp)
            && 0 <= t.1 < 256
            && Assoc.Get(FeatureValues(fs, t.0), t.1).Some?
  {
    ColorModesDecode(fs, m);
    FeatureValuesOk(fs, Ddc.ColorTarget(m).0);
    GetBelow(FeatureValues(fs, Ddc.ColorTarget(m).0), Ddc.ColorTarget(m).1);
  }

  /** `DDCController`: one monitor's command channel. */
  class DdcController {
    const device: (Command, nat) -> Attempt
    var retryCount: int
    /** `_vcp_cache`: the last value read or written per code. */
    var vcpCache: map<int, int>
    /** `_unsupported_features`: codes whose read failed. */
    var unsupported: set<int>
    /** `_capabilities_cache`. */
    var capabilitiesCache: Option<Capabilities.Caps>
    /** Whether `_busy_callback` is set. */
    var hasBusyCallback: bool
    var busyLog: seq<bool>
    var commandLog: seq<Command>
    /** The observer calls and the ddcutil runs, interleaved as they happened. */
    var events: seq<Event>

    /** A cached capabilities table is one the parser produced: well-formed. */
    ghost predicate Valid()
      reads this
    {
      capabilitiesCache.Some? ==> Capabilities.WellFormed(Capabilities.Scan(capabilitiesCache.value, None))
    }

    constructor (device: (Command, nat) -> Attempt, retryCount: int)
      ensures Valid()
      ensures this.device == device && this.retryCount == retryCount
      ensures vcpCache == map[] && unsupported == {} && capabilitiesCache == None
      ensures !hasBusyCallback && busyLog == [] && commandLog == [] && events == []
    {
      this.device := device;
      this.retryCount := retryCount;
      vcpCache := map[];
      unsupported := {};
      capabilitiesCache := None;
      hasBusyCallback := false;
      busyLog := [];
      commandLog := [];
      events := [];
    }

    /** `set_busy_callback`. */
    method SetBusyCallback()
      modifies this`hasBusyCallback
      ensures hasBusyCallback
    {
      hasBusyCallback := true;
    }

    /**
     * `_notify_busy`: the observer is called when one is set.  Whatever it
     * raises is swallowed, so the call has no effect on the channel.
     */
    method NotifyBusy(busy: bool)
      modifies this`busyLog, this`events
      ensures busyLog == old(busyLog) + (if hasBusyCallback then [busy] else [])
      ensures events == old(events) + (if hasBusyCallback then [Notified(busy)] else [])
    {
      if hasBusyCallback {
        busyLog := busyLog + [busy];
        events := events + [Notified(busy)];
      }
    }

    /** `clear_vcp_cache`: one code, or every code when none is given. */
    method ClearVcpCache(code: Option<int>)
      modifies this`vcpCache
      ensures code.Some? ==> vcpCache == old(vcpCache) - {code.value}
      ensures code.None? ==> vcpCache == map[]
    {
      if code.Some? {
        vcpCache := vcpCache - {code.value};
      } else {
        vcpCache := map[];
      }
    }

    /**
     * `_run_ddcutil`: at most `retry_count` attempts, stopping at the first
     * that completes; busy before the first attempt and idle on every exit.
     * `None` is the `DDCError` raised after the last failed attempt.
     */
    method RunDdcutil(cmd: Command) returns (out: Option<string>)
      modifies this`busyLog, this`commandLog, this`events
      ensures var t := Tries(device, cmd, |old(commandLog)|, Budget(retryCount));
              && out == t.0 && commandLog == old(commandLog) + Repeat(cmd, t.1)
              && events == old(events) + RunTrace(cmd, t.1, hasBusyCallback)
      ensures busyLog == old(busyLog) + BusyPair(hasBusyCallback)
    {
      NotifyBusy(true);
      out := Attempts(cmd);
      NotifyBusy(false);
    }

    /** The `for attempt in range(self.retry_count)` loop of `_run_ddcutil`. */
    method Attempts(cmd: Command) returns (out: Option<string>)
      modifies this`commandLog, this`events
      ensures var t := Tries(device, cmd, |old(commandLog)|, Budget(retryCount));
              && out == t.0 && commandLog == old(commandLog) + Repeat(cmd, t.1)
              && events == old(events) + Runs(cmd, t.1)
    {
      var start := |commandLog|;
      var n := Budget(retryCount);
      var attempt := 0;
      while attempt < n
        invariant 0 <= attempt <= n
        invariant commandLog == old(commandLog) + Repeat(cmd, attempt)
        invariant events == old(events) + Runs(cmd, attempt)
        invariant |commandLog| == start + attempt
        invariant forall k :: start <= k < start + attempt ==> !device(cmd, k).Completed?
      {
        var a := device(cmd, start + attempt);
        OneMoreAttempt(old(commandLog), old(events), cmd, attempt);
        commandLog := commandLog + [cmd];
        events := events + [Ran(cmd)];
        if a.Completed? {
          TriesFirstCompleted(device, cmd, start, n, attempt);
          return Some(a.stdout);
        }
        attempt := attempt + 1;
      }
      TriesAllFailed(device, cmd, start, n);
      return None;
    }

    /**
     * `get_vcp`: a code known to be unsupported fails at once; a failed run
     * marks the code unsupported; output none of the reply formats match is
     * an error that marks nothing; a parsed reply caches its current value
     * under the requested code.
     */
    method GetVcp(code: int) returns (r: Result<VcpReply.VcpFeature, DdcError>)
      modifies this`unsupported, this`vcpCache, this`busyLog, this`commandLog, this`events
      ensures old(code in unsupported) ==>
                r == Failure(Unsupported) && unsupported == old(unsupported) && vcpCache == old(vcpCache)
                && commandLog == old(commandLog) && busyLog == old(busyLog) && events == old(events)
      ensures !old(code in unsupported) ==>
                var t := Tries(device, GetVcpCmd(code), |old(commandLog)|, Budget(retryCount));
                && commandLog == old(commandLog) + Repeat(GetVcpCmd(code), t.1)
                && busyLog == old(busyLog) + BusyPair(hasBusyCallback)
                && events == old(events) + RunTrace(GetVcpCmd(code), t.1, hasBusyCallback)
                && (t.0.None? ==> r == Failure(CommandFailed) && unsupported == old(unsupported) + {code} && vcpCache == old(vcpCache))
                && (t.0.Some? ==>
                      && unsupported == old(unsupported)
                      && match VcpReply.ParseReply(t.0.value)
                         case None => r == Failure(Unparsed(t.0.value)) && vcpCache == old(vcpCache)
                         case Some(f) => r == Success(f) && vcpCache == old(vcpCache)[code := f.currentValue])
    {
      if code in unsupported {
        return Failure(Unsupported);
      }
      r := FetchVcp(code);
    }

    /** `get_vcp` for a code not known to be unsupported: one `ddcutil getvcp` run and its decoding. */
    method FetchVcp(code: int) returns (r: Result<VcpReply.VcpFeature, DdcError>)
      requires code !in unsupported
      modifies this`unsupported, this`vcpCache, this`busyLog, this`commandLog, this`events
      ensures var t := Tries(device, GetVcpCmd(code), |old(commandLog)|, Budget(retryCount));
              && commandLog == old(commandLog) + Repeat(GetVcpCmd(code), t.1)
              && busyLog == old(busyLog) + BusyPair(hasBusyCallback)
              && events == old(events) + RunTrace(GetVcpCmd(code), t.1, hasBusyCallback)
              && (t.0.None? ==> r == Failure(CommandFailed) && unsupported == old(unsupported) + {code} && vcpCache == old(vcpCache))
              && (t.0.Some? ==>
                    && unsupported == old(unsupported)
                    && match VcpReply.ParseReply(t.0.value)
                       case None => r == Failure(Unparsed(t.0.value)) && vcpCache == old(vcpCache)
                       case Some(f) => r == Success(f) && vcpCache == old(vcpCache)[code := f.currentValue])
    {
      ghost var t := Tries(device, GetVcpCmd(code), |commandLog|, Budget(retryCount));
      var out := RunDdcutil(GetVcpCmd(code));
      assert out == t.0;
      if out.None? {
        unsupported := unsupported + {code};
        return Failure(CommandFailed);
      }
      var reply := VcpReply.ParseReply(out.value);
      if reply.None? {
        return Failure(Unparsed(out.value));
      }
      vcpCache := vcpCache[code := reply.value.currentValue];
      return Success(reply.value);
    }

    /** The whole effect of `set_vcp(code, value, noverify, force)` returning `ok`. */
    twostate predicate WroteVcp(code: int, value: int, noverify: Option<bool>, force: bool, ok: bool)
      reads this
    {
      var cmd := SetVcpCmd(code, value, noverify.GetOr(code in Ddc.NoVerifyCodes));
      if WriteSkipped(old(vcpCache), code, value, force) then
        ok && vcpCache == old(vcpCache) && commandLog == old(commandLog) && busyLog == old(busyLog) && events == old(events)
      else
        var t := Tries(device, cmd, |old(commandLog)|, Budget(retryCount));
        && ok == t.0.Some?
        && vcpCache == CacheAfterSend(old(vcpCache), code, value, ok)
        && commandLog == old(commandLog) + Repeat(cmd, t.1)
        && busyLog == old(busyLog) + BusyPair(hasBusyCallback)
        && events == old(events) + RunTrace(cmd, t.1, hasBusyCallback)
    }

    /**
     * `set_vcp`: an unforced write of the value already cached is skipped
     * and reported as done; otherwise the command is run (with
     * `--noverify` for the listed codes unless the caller says) and the
     * cache entry is set on success and dropped on failure.
     */
    method SetVcp(code: int, value: int, noverify: Option<bool>, force: bool) returns (ok: bool)
      modifies this`vcpCache, this`busyLog, this`commandLog, this`events
      ensures WroteVcp(code, value, noverify, force, ok)
    {
      if !force && code in vcpCache && vcpCache[code] == value {
        return true;
      }
      var flag := if noverify.Some? then noverify.value else code in Ddc.NoVerifyCodes;
      var out := RunDdcutil(SetVcpCmd(code, value, flag));
      if out.Some? {
        vcpCache := vcpCache[code := value];
        ok := true;
      } else {
        if code in vcpCache {
          vcpCache := vcpCache - {code};
        }
        ok := false;
      }
    }

    /** `set_brightness`: the value clamped to 0..100. */
    method SetBrightness(value: int) returns (ok: bool)
      modifies this`vcpCache, this`busyLog, this`commandLog, this`events
      ensures WroteVcp(Ddc.VcpBrightness, Ddc.Clamp(0, 100, value), None, false, ok)
    {
      ok := SetVcp(Ddc.VcpBrightness, Ddc.Clamp(0, 100, value), None, false);
    }

    /** `set_contrast`: the value clamped to 0..100. */
    method SetContrast(value: int) returns (ok: bool)
      modifies this`vcpCache, this`busyLog, this`commandLog, this`events
      ensures WroteVcp(Ddc.VcpContrast, Ddc.Clamp(0, 100, value), None, false, ok)
    {
      ok := SetVcp(Ddc.VcpContrast, Ddc.Clamp(0, 100, value), None, false);
    }

    /** `set_sharpness`: the value clamped to 0..`maxValue`. */
    method SetSharpness(value: int, maxValue: int) returns (ok: bool)
      modifies this`vcpCache, this`busyLog, this`commandLog, this`events
      ensures WroteVcp(Ddc.VcpSharpness, Ddc.Clamp(0, maxValue, value), None, false, ok)
    {
      ok := SetVcp(Ddc.VcpSharpness, Ddc.Clamp(0, maxValue, value), None, false);
    }

    /**
     * `set_color_mode`: a combined value from 0x1000 on is written to 0x14
     * less the offset, any other to 0xDC as it is; always forced and
     * without verification.
     */
    method SetColorMode(value: int) returns (ok: bool)
      modifies this`vcpCache, this`busyLog, this`commandLog, this`events
      ensures WroteVcp(Ddc.ColorTarget(value).0, Ddc.ColorTarget(value).1, Some(true), true, ok)
    {
      var code, actual;
      if value >= Ddc.PresetOffset {
        actual := value - Ddc.PresetOffset;
        code := Ddc.VcpColorTemp;
      } else {
        actual := value;
        code := Ddc.VcpColorPreset;
      }
      ok := SetVcp(code, actual, Some(true), true);
    }

    /**
     * The effect of `get_capabilities` returning `r`: the cached table when
     * there is one; otherwise one `capabilities` run whose output is parsed
     * and cached, or whose failure is passed on with nothing cached.
     */
    twostate predicate FetchedCapabilities(new r: Result<Capabilities.Caps, DdcError>)
      reads this
    {
      if old(capabilitiesCache).Some? then
        r == Success(old(capabilitiesCache).value) && capabilitiesCache == old(capabilitiesCache)
        && commandLog == old(commandLog) && busyLog == old(busyLog) && events == old(events)
      else
        var t := Tries(device, CapabilitiesCmd, |old(commandLog)|, Budget(retryCount));
        && commandLog == old(commandLog) + Repeat(CapabilitiesCmd, t.1)
        && busyLog == old(busyLog) + BusyPair(hasBusyCallback)
        && events == old(events) + RunTrace(CapabilitiesCmd, t.1, hasBusyCallback)
        && (t.0.None? ==> r == Failure(CommandFailed) && capabilitiesCache == None)
        && (t.0.Some? ==> r == Success(Capabilities.Parse(t.0.value)) && capabilitiesCache == Some(r.value))
    }

    /** `get_capabilities`, with its line loop. */
    method GetCapabilities() returns (r: Result<Capabilities.Caps, DdcError>)
      requires Valid()
      modifies this`capabilitiesCache, this`busyLog, this`commandLog, this`events
      ensures Valid()
      ensures FetchedCapabilities(r)
    {
      if capabilitiesCache.Some? {
        return Success(capabilitiesCache.value);
      }
      var out := RunDdcutil(CapabilitiesCmd);
      if out.None? {
        return Failure(CommandFailed);
      }
      var caps := ParseCapabilities(out.value);
      capabilitiesCache := Some(caps);
      return Success(caps);
    }

    /**
     * `get_available_color_modes`: the listed values of 0xDC, then those of
     * 0x14 shifted by 0x1000, from the capabilities; nothing when they
     * cannot be read.
     */
    method GetAvailableColorModes() returns (modes: seq<(int, string)>)
      requires Valid()
      modifies this`capabilitiesCache, this`busyLog, this`commandLog, this`events
      ensures Valid()
      ensures exists r :: FetchedCapabilities(r) && modes == if r.Success? then ColorModes(r.value.features) else []
    {
      var caps := GetCapabilities();
      if caps.Failure? {
        return [];
      }
      var fs := caps.value.features;
      modes := [];
      if Assoc.HasKey(fs, Ddc.VcpColorPreset as nat) {
        var dc := Assoc.Get(fs, Ddc.VcpColorPreset as nat).value.values;
        modes := AddAll(modes, dc, 0);
      }
      if Assoc.HasKey(fs, Ddc.VcpColorTemp as nat) {
        var cp := Assoc.Get(fs, Ddc.VcpColorTemp as nat).value.values;
        modes := AddAll(modes, cp, Ddc.PresetOffset);
      }
    }
  }

  /** The line loop of `get_capabilities`. */
  method ParseCapabilities(out: string) returns (caps: Capabilities.Caps)
    ensures caps == Capabilities.Parse(out)
  {
    var lines := Text.Split(out, '\n');
    var sc := Capabilities.Start;
    var i := 0;
    while i < |lines|
      invariant 0 <= i <= |lines|
      invariant sc == Capabilities.Run(lines[..i])
    {
      assert lines[..i + 1][..i] == lines[..i];
      sc := Capabilities.Step(sc, lines[i]);
      i := i + 1;
    }
    assert lines[..|lines|] == lines;
    caps := sc.caps;
  }

  /** One `for value, name in values.items()` loop of `get_available_color_modes`; `rest` holds the pairs not yet visited. */
  method AddAll(modes: seq<(int, string)>, values: seq<(int, string)>, offset: int) returns (r: seq<(int, string)>)
    ensures r == AddModes(modes, values, offset)
  {
    r := modes;
    var rest := values;
    while rest != []
      invariant AddModes(r, rest, offset) == AddModes(modes, values, offset)
      decreases |rest|
    {
      AddModesStep(r, rest, offset);
      r, rest := Assoc.Put(r, rest[0].0 + offset, rest[0].1), rest[1..];
    }
  }

  lemma AddModesStep(modes: seq<(int, string)>, values: seq<(int, string)>, offset: int)
    requires values != []
    ensures AddModes(modes, values, offset) == AddModes(Assoc.Put(modes, values[0].0 + offset, values[0].1), values[1..], offset)
  {
  }
}
