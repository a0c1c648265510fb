# monitor-control, modelled in Dafny

This project models the control core of monitor-control, a Linux program
that adjusts monitor brightness, contrast, colour mode and colour gains
over DDC/CI through `ddcutil`. The model covers five parts:

- **The command channel** (`DDCController` in `monitor_control/ddc.py`):
  - the retry loop around each `ddcutil` run;
  - the write-reduction cache and the set of unsupported features;
  - the busy notifications, and their order around each run;
  - decoding of `getvcp` replies and `capabilities` listings;
  - reading `detect --terse` and `xrandr --query` output;
  - matching DRM connectors to xrandr outputs;
  - the clamped setters;
  - the "combined" colour value, which folds VCP features 0xDC (display mode) and 0x14 (colour preset) into one number.
- **The screen analyzer** (`monitor_control/screen_analyzer.py`):
  - the brightness and contrast suggestion computed from screen statistics;
  - reuse of the last analysis while sampled pixels stay the same;
  - failover between capture tools;
  - the crop and interval clamps.
- **Window tracking** (`monitor_control/window_monitor.py`):
  - glob matching of window classes and titles;
  - the change detection of the X11, xdotool and Wayland active-window monitors, and starting and stopping them.
- **Configuration data** (`monitor_control/config.py`):
  - profile records, read from files and sorted by priority;
  - colour-mode name tables;
  - moving a window class between profiles;
  - the per-monitor colour tables.
- **The profile manager** (`monitor_control/profile_manager.py`) and the non-GUI parts of the application (`main.py`):
  - deciding which monitor a window is on;
  - choosing a profile for the focused window;
  - applying its colours through the cache;
  - adaptive brightness and contrast;
  - monitor tab names;
  - initialising the per-profile colour tables;
  - profile colour edits;
  - the per-display coalescing of slider writes.

The source's types map to Dafny as follows:

- Value records become datatypes.
- Objects whose fields the source updates in place become classes, whose methods are proved against specification functions.
- Python loops become `while` loops with invariants.
- Insertion-ordered dictionaries become association lists (module `Assoc`). Dictionaries whose order does not matter become maps.
- Subprocesses, screen captures and window-system queries become oracle parameters, or inputs to the operation that reads them.

### Modules

| module | file | models |
|---|---|---|
| Wrappers, Text, Assoc | wrappers.dfy, text.dfy, assoc.dfy | `Optional`/exceptions, `str` operations, ordered `dict` |
| Ddc | ddc.dfy | geometry, `MonitorInfo.get_config_id`, VCP codes, combined colour value, clamps |
| VcpReply | vcp_reply.dfy | the four `getvcp` reply expressions |
| Capabilities | capabilities.dfy | the `capabilities` listing reader |
| Xrandr, Detect, DrmMatch | xrandr.dfy, detect.dfy, drm.dfy | `get_xrandr_monitors`, `detect_monitors`, `_match_drm_to_xrandr` |
| DdcChannel | ddc_channel.dfy | class `DDCController` |
| Glob, WindowMonitor | glob.dfy, window_monitor.dfy | `fnmatch`, `WindowInfo`, the three monitors' change detection |
| Screen | screen_analyzer.dfy | class `ScreenAnalyzer` |
| Config | config.dfy | `ProfileSettings`, `Profile`, classes `Config` and `MonitorConfig` |
| Profiles | profile_manager.dfy | class `ProfileManager` |
| App | app.dfy | the value-deciding parts of `MonitorControlApp` |

## Model

| member | source | states |
|---|---|---|
| Text.ReplaceChar | monitor_control/ddc.py:73-76 | `str.replace` of one character: the length is kept, every occurrence of the character is replaced, every other character kept |
| Text.Split | monitor_control/ddc.py:377 | `str.split` on one character gives at least one piece, and no piece holds the separator |
| Text.SplitAtSeparator | monitor_control/ddc.py:486 | a string holding the separator splits into at least two pieces, the first of them the text before the separator |
| Text.JoinSplit | monitor_control/ddc.py:377 | joining the pieces with the separator gives back the original text, so splitting loses nothing |
| Text.Strip | monitor_control/config.py:384-388 | `str.strip` removes a whitespace-only prefix and a whitespace-only suffix and nothing else: the result is a slice of the input, everything before and after that slice is whitespace, and the result neither starts nor ends with whitespace |
| Text.StripUnspaced | monitor_control/config.py:388 | a string without leading or trailing whitespace is its own strip |
| Text.NatToString | main.py:548 | the decimal text of a number is non-empty and all digits |
| Text.ParseDecimalNatToString | main.py:548 | reading the decimal text of a number back gives the number |
| Ddc.Centre | monitor_control/ddc.py:37-41 | the window centre is `wx + ww // 2`, `wy + wh // 2` with floor division, stated as bounds on twice the offset |
| Ddc.CentreOnAtMostOneMonitor | monitor_control/ddc.py:32-42 | `ContainsWindow`: with the half-open containment test, a window centre lies on at most one of several pairwise non-overlapping monitors |
| Ddc.SeamAttribution | monitor_control/ddc.py:32-42 | two side-by-side 1920x1080 monitors: a window straddling the seam belongs to the monitor holding its centre, and a full-screen window on the left one is not claimed by the right one |
| Ddc.Sanitise | monitor_control/ddc.py:72 | the cleaned serial keeps its length and holds only letters, digits and `_`; each letter and digit stays in place and every other character becomes `_` |
| Ddc.SanitiseFixesWordStrings | monitor_control/ddc.py:72 | the clean-up leaves a serial unchanged exactly when it already consists of letters, digits and `_` |
| Ddc.SanitiseIdempotent | monitor_control/ddc.py:72 | cleaning a cleaned serial changes nothing |
| Ddc.SanitiseKeepingSpaces | monitor_control/ddc.py:75 | the cleaned model keeps its length and holds only letters, digits, `_` and spaces; letters, digits and spaces stay in place and everything else becomes `_` |
| Ddc.SpacesThenUnderscores | monitor_control/ddc.py:75-78 | the model clean-up followed by the space replacement of line 78 gives the same text as the serial clean-up |
| Ddc.ConfigIdHasNoSpace | monitor_control/ddc.py:67-78 | `ConfigId`: a configuration id never contains a space |
| Ddc.ConfigIdWithoutSerialIsWordChars | monitor_control/ddc.py:74-78 | without a serial the id consists of letters, digits and `_` only |
| Ddc.ConfigIdWithSerial | monitor_control/ddc.py:70-73 | `ConfigId`: with a serial the id is the model with spaces turned to `_`, then `_`, then the sanitised serial |
| Ddc.ConfigIdSeparatesDisplays | monitor_control/ddc.py:74-78 | two serial-less monitors of the same model on different displays get different ids |
| Ddc.ColorTarget | monitor_control/ddc.py:892-920 | a combined colour value is sent to code 0xDC or 0x14, to 0x14 exactly when it is at least 0x1000, and encoding the chosen code and value again gives back the combined value |
| Ddc.ColorTargetInvertsCombinedValue | monitor_control/ddc.py:850-920 | decoding undoes the encoding of the colour-mode list for every capability value 0..255 of 0xDC or 0x14, and the encoded value is below 0x1000 exactly for 0xDC |
| Ddc.Clamp | monitor_control/ddc.py:814-824 | `max(lo, min(hi, v))`: the result is at least `lo`, at most `hi` when `lo <= hi`, equal to `v` inside the range and to the nearer bound outside it |
| DdcChannel.Tries | monitor_control/ddc.py:316-353 | at most `n` attempts are made; with an output, the last attempt made is the one that completed with it; without one, all `n` were made |
| DdcChannel.TriesFirstCompleted | monitor_control/ddc.py:317-329 | the loop stops at the first attempt that completes and returns its output after `j + 1` attempts |
| DdcChannel.TriesAllFailed | monitor_control/ddc.py:330-353 | when every attempt fails or times out, all of them are made and no output comes back |
| DdcChannel.Repeat | monitor_control/ddc.py:317 | the attempt log of `n` runs of one command is that command `n` times |
| DdcChannel.CacheAfterSend | monitor_control/ddc.py:795-806 | after a write the cache holds the value for a success, has no entry for a failure, and every other code is untouched |
| DdcChannel.FailedWriteIsNotSuppressed | monitor_control/ddc.py:783-806 | after a failed write, an identical unforced write is not skipped |
| DdcChannel.SentWriteSuppressesRepeat | monitor_control/ddc.py:783-799 | after a successful write, an identical unforced write is skipped |
| DdcChannel.FeatureValuesOk | monitor_control/ddc.py:863-875 | the capability values of a feature have distinct keys, each of them within 0..255 |
| DdcChannel.GetBelow | monitor_control/ddc.py:863-875 | a value listed for a feature is within 0..255 |
| DdcChannel.ColorModesDecode | monitor_control/ddc.py:850-920 | the colour-mode list names a combined value exactly as the feature that decoding picks names the decoded value |
| DdcChannel.CombinedDecode | monitor_control/ddc.py:863-875 | looking up a combined value in the merged 0xDC and shifted 0x14 lists finds the entry of the list its decoding picks |
| DdcChannel.OfferedModesAreWritable | monitor_control/ddc.py:850-920 | every offered colour mode decodes to a feature the monitor lists and a value that feature lists |
| DdcChannel.DdcController.constructor | monitor_control/ddc.py:131-165 | a new controller has an empty cache, no unsupported code, no capabilities, no busy observer and no runs |
| DdcChannel.DdcController.SetBusyCallback | monitor_control/ddc.py:167-173 | the busy observer is set |
| DdcChannel.DdcController.NotifyBusy | monitor_control/ddc.py:175-181 | the observer, when set, is called once with the flag; errors it raises are swallowed |
| DdcChannel.DdcController.ClearVcpCache | monitor_control/ddc.py:207-217 | one code's entry is dropped, or the whole cache is emptied |
| DdcChannel.DdcController.RunDdcutil | monitor_control/ddc.py:282-358 | the attempts are those of `Tries` over the retry budget, logged in order; the event log grows by exactly `RunTrace`: busy(True), then the attempts, then busy(False), on every exit (the busy events only with an observer) |
| DdcChannel.RunTraceBracketsAttempts | monitor_control/ddc.py:316-358 | in one run's trace, busy(True) comes first, busy(False) last and only attempts lie between; the trace's observer calls are the busy pair and its runs are the attempt log |
| DdcChannel.DdcController.Attempts | monitor_control/ddc.py:316-353 | the retry loop returns the output and logs the attempts that `Tries` describes |
| DdcChannel.DdcController.GetVcp | monitor_control/ddc.py:638-752 | a known-unsupported code fails with no run; a failed run marks the code unsupported; an unparsed reply fails and marks nothing; a parsed reply is returned and its current value cached under the code; the reply is read in the corrected order (`VcpReply.ParseReply`, hexadecimal form first) |
| DdcChannel.DdcController.FetchVcp | monitor_control/ddc.py:656-752 | one `getvcp` run: a failed run marks the code unsupported; otherwise the reply, read by `VcpReply.ParseReply`, is returned and cached, or reported as unparsed with nothing cached |
| DdcChannel.DdcController.SetVcp | monitor_control/ddc.py:767-806 | an unforced write of the cached value is skipped and reports success; otherwise the command runs (with `--noverify` for the listed codes unless the caller says), success caches the value, failure drops the entry and reports false |
| DdcChannel.DdcController.SetBrightness | monitor_control/ddc.py:814-816 | writes code 0x10 with the value clamped to 0..100 |
| DdcChannel.DdcController.SetContrast | monitor_control/ddc.py:822-824 | writes code 0x12 with the value clamped to 0..100 |
| DdcChannel.DdcController.SetSharpness | monitor_control/ddc.py:846-848 | writes code 0x87 with the value clamped to 0..max |
| DdcChannel.DdcController.SetColorMode | monitor_control/ddc.py:892-920 | writes the decoded code and value, forced and without verification |
| DdcChannel.DdcController.GetCapabilities | monitor_control/ddc.py:594-636 | the cached table when there is one; otherwise one run whose parsed output is cached and returned, or whose failure caches nothing |
| DdcChannel.ParseCapabilities | monitor_control/ddc.py:612-633 | the line loop builds exactly the table `Capabilities.Parse` describes, so it has one entry per byte code with distinct byte values |
| DdcChannel.DdcController.GetAvailableColorModes | monitor_control/ddc.py:850-890 | the 0xDC values, then the 0x14 values shifted by 0x1000, from the capabilities; nothing when they cannot be read |
| DdcChannel.AddAll | monitor_control/ddc.py:865-875 | the value loop adds every listed value, shifted by the offset, in order |
| VcpReply.NotLitAt | monitor_control/ddc.py:668-672 | under `re.IGNORECASE` a literal cannot start at a character that differs from its first one in case-folded form |
| VcpReply.Spaces | monitor_control/ddc.py:668-672 | `\s*` skips forward within the text and no further |
| VcpReply.HeaderAt | monitor_control/ddc.py:668-670 | a matched header `VCP code 0x<hex>\s+(<name>)` ends just after a `)`, with a non-empty name free of `)` |
| VcpReply.AssignAt | monitor_control/ddc.py:671-690 | a matched `key = <digits>` assignment ends after its start, inside the text |
| VcpReply.InvalidAt | monitor_control/ddc.py:711 | a matched `Invalid value (sl=0x<hex>)` ends after its start, inside the text |
| VcpReply.TailAt | monitor_control/ddc.py:671-711 | a matched tail pattern ends after its start, inside the text |
| VcpReply.FirstOnLine | monitor_control/ddc.py:668-672 | the lazy `.*?` stops at the first matching position on the current line, and fails when none on that line matches |
| VcpReply.FirstOnLineStep | monitor_control/ddc.py:668-672 | a position that neither matches nor ends the line passes the scan on |
| VcpReply.FirstOnLineReaches | monitor_control/ddc.py:668-672 | the scan stops at `j` when `j` matches and nothing before it matches or ends the line |
| VcpReply.LazyTail | monitor_control/ddc.py:688-714 | `.*?` followed by a tail finds the first position on the line where the tail matches |
| VcpReply.LazyTailReaches | monitor_control/ddc.py:688-693 | the lazy tail stops at the first match when nothing before it matches or ends the line |
| VcpReply.LazyCurrentAndMax | monitor_control/ddc.py:668-672 | `.*?` followed by the continuous tail finds its first match on the line |
| VcpReply.LazyCurrentAndMaxReaches | monitor_control/ddc.py:668-672 | the continuous scan stops at the first match when nothing before it matches or ends the line |
| VcpReply.ReplyAt | monitor_control/ddc.py:667-750 | a reply carries the header's code and name, is continuous exactly in the first format, and the other formats report max 255 |
| VcpReply.FirstHit | monitor_control/ddc.py:668 | `re.search` tries start positions from the left: the first one that matches |
| VcpReply.Search | monitor_control/ddc.py:668-750 | the match at the leftmost start that has one, or none when no start matches; continuous exactly for the first format, max 255 for the others |
| VcpReply.ParseReplyAsWritten | monitor_control/ddc.py:667-752 | the four formats tried in the written order: a continuous result is the first format's match, the others report max 255, and nothing is parsed only when no format matches |
| VcpReply.ParseReply | monitor_control/ddc.py:667-752 | the corrected order: a reply the hexadecimal format matches is read by it; otherwise as written; it fails exactly when the written order fails |
| VcpReply.ReorderingOnlyAffectsHexReplies | monitor_control/ddc.py:667-752 | when the hexadecimal format does not match, the corrected and the written order agree |
| VcpReply.HexReplyExampleHeader | monitor_control/ddc.py:687-690 | the header of the reply `VCP code 0x14 (P): current value = 0x05, max value = 0x0b` is code 0x14, name `P` |
| VcpReply.HexReplyExampleDecimalReply | monitor_control/ddc.py:668-685 | the continuous expression matches that reply at its start, reading current 0 and max 0 |
| VcpReply.HexReplyMisreadAsWritten | monitor_control/ddc.py:667-705 | as written, that reply is parsed as continuous with current value 0 and max 0 |
| VcpReply.HexReplyExampleHexReply | monitor_control/ddc.py:687-705 | the hexadecimal expression matches that reply at its start, reading current value 5 |
| VcpReply.HexReplyReadCorrectly | monitor_control/ddc.py:687-705 | with the hexadecimal format tried first, that reply reads current value 5 and max 255 |
| Capabilities.Indent | monitor_control/ddc.py:617-626 | `^\s+` consumes exactly the leading whitespace of a line |
| Capabilities.FeatureAt | monitor_control/ddc.py:619-623 | a matched `Feature: XX (name)` yields a byte code and a name free of `)`, and starts with the literal `Feature: ` |
| Capabilities.FeatureSearch | monitor_control/ddc.py:619 | the leftmost match of the feature pattern yields a byte code and a name free of `)` |
| Capabilities.FeatureSearchFinds | monitor_control/ddc.py:619 | the search returns the match at `j` when nothing matches between the start and `j` |
| Capabilities.HeaderNamesItsFeature | monitor_control/ddc.py:617-624 | on a header line the feature recorded is the one the header itself names |
| Capabilities.ValueEntry | monitor_control/ddc.py:628-633 | a value line is indented, starts with two hex digits and a `:`, and yields a byte value |
| Capabilities.PutFeatureOk | monitor_control/ddc.py:623-624 | storing a feature under a byte code keeps distinct byte codes with well-formed value tables |
| Capabilities.PutValueOk | monitor_control/ddc.py:633 | adding a byte value keeps the value table's keys distinct bytes |
| Capabilities.StepWellFormed | monitor_control/ddc.py:613-633 | each line of the loop keeps the parsed table well formed |
| Capabilities.Step | monitor_control/ddc.py:613-633 | one line of the loop: only a `Model:` line changes the model, only an `MCCS version:` line the version, only a feature header the current feature, only a header or a value line under a current feature the table, and no listed code is ever dropped |
| Capabilities.Run | monitor_control/ddc.py:606-633 | whatever ddcutil prints, the state after every line is well formed: distinct byte codes, each with distinct byte values, and the current feature is always listed |
| Capabilities.Parse | monitor_control/ddc.py:594-636 | the capabilities read from any output have one entry per code, every code a byte, and every value table of distinct bytes |
| Capabilities.ValueLineFiledUnderCurrent | monitor_control/ddc.py:628-633 | a value line is filed under the feature of the latest header; other features, the model and the version are unchanged |
| Capabilities.ValueLineWithoutFeatureIgnored | monitor_control/ddc.py:625-633 | before the first feature header, value lines change nothing |
| Capabilities.RepeatedHeaderResetsFeature | monitor_control/ddc.py:617-624 | a header starts its feature afresh with no values, becomes the current feature, and a repeated code keeps its place in the order |
| Detect.DisplayLineReadsNumber | monitor_control/ddc.py:532-535 | a `Display N` line, followed by anything but a digit, records display number `N` |
| Detect.DetectMonitors | monitor_control/ddc.py:494-592 | the line loop returns exactly the records that the line-by-line reading describes, with xrandr queried first; the geometry comes from the corrected connector matching (`DrmMatch.Match`, see Findings) |
| Detect.FinishRecord | monitor_control/ddc.py:513-527 | a finished record takes the source's defaults for missing fields and the geometry that the corrected connector matching (`DrmMatch.Match`) finds |
| Detect.FlushReported | monitor_control/ddc.py:512-528 | a record is appended only with a non-zero display number, and its geometry is one xrandr reported |
| Detect.RunReported | monitor_control/ddc.py:508-568 | `Run`: after any lines, every finished record has display number at least 1 and a geometry from the xrandr list |
| Detect.MonitorsReported | monitor_control/ddc.py:494-585 | `Monitors`: every detected monitor has display number at least 1, and its geometry, when found, is one of xrandr's monitors |
| Detect.MonitorLineFillsThreeFields | monitor_control/ddc.py:541-550 | the terse `Monitor: MFG:Model:Serial` value fills manufacturer and model (empty parts become `Unknown`) and, given a third part, the serial |
| Xrandr.NumberAt | monitor_control/ddc.py:382-385 | `(\d+)` takes the longest run of digits after the start |
| Xrandr.NumberThen | monitor_control/ddc.py:382-385 | a number followed by the separator ends just after the separator |
| Xrandr.PrimaryAt | monitor_control/ddc.py:382-385 | the optional `primary\s+` group matched exactly when it consumed something |
| Xrandr.OutputHead | monitor_control/ddc.py:382-385 | the output name is a non-empty run of non-space characters at the start of the line |
| Xrandr.ConnectedLine | monitor_control/ddc.py:381-404 | a `connected` line opens a monitor named by its first word, with non-negative geometry, native size equal to the framebuffer size and scale 1 |
| Xrandr.WithNativeMode | monitor_control/ddc.py:407-416 | an active mode line sets the native size and, for a positive size, the scale with `scale * native == framebuffer`; everything else is kept |
| Xrandr.GetXrandrMonitors | monitor_control/ddc.py:361-441 | the line loop returns the monitors the line-by-line reading describes, or none when the command fails |
| Xrandr.Names | monitor_control/ddc.py:378-428 | the output names of a monitor list, in order |
| Xrandr.StepNames | monitor_control/ddc.py:380-424 | one line adds the name of a `connected` line and keeps every other name, in order |
| Xrandr.RunNames | monitor_control/ddc.py:380-424 | `Run`: after any lines, the finished and the open monitor are those of the `connected` lines, in order |
| Xrandr.MonitorsAreTheConnectedOutputs | monitor_control/ddc.py:361-434 | `Monitors` (over `Run`): the monitors reported are exactly the `connected` outputs with a geometry, in output order |
| Xrandr.UnitScaleConsistent | monitor_control/ddc.py:393-404 | a monitor at scale 1 whose native size is its own is consistent |
| Xrandr.ConnectedConsistent | monitor_control/ddc.py:381-404 | a monitor opened by a `connected` line is consistent |
| Xrandr.NativeModeConsistent | monitor_control/ddc.py:407-416 | recording the active mode keeps a monitor consistent |
| Xrandr.StepConsistent | monitor_control/ddc.py:380-424 | each line keeps every monitor consistent |
| Xrandr.RunConsistent | monitor_control/ddc.py:380-424 | after any lines every monitor is consistent |
| Xrandr.MonitorsConsistent | monitor_control/ddc.py:361-434 | every reported monitor has a name, non-negative geometry, and a scale that relates its framebuffer size to a positive native size |
| DrmMatch.CardPrefix | monitor_control/ddc.py:454 | `card\d+-` ends after at least `card`, one digit and the dash |
| DrmMatch.KindEnd | monitor_control/ddc.py:454 | `(\w+)-` takes word characters up to a dash |
| DrmMatch.ParseConnectorExtendsAsWritten | monitor_control/ddc.py:454-459 | the corrected connector expression reads every name the original reads, the same way |
| DrmMatch.Patterns | monitor_control/ddc.py:461-475 | the candidate xrandr names per connector type, none for a type other than DP, HDMI or eDP |
| DrmMatch.FindNamed | monitor_control/ddc.py:478-482 | a monitor with the given name, taken from the list, or none exactly when no monitor has it |
| DrmMatch.FindNamedIsFirst | monitor_control/ddc.py:478-482 | the monitor found is the first with the name: every monitor before it in the list has another name |
| DrmMatch.FirstExact | monitor_control/ddc.py:477-482 | the exact pass finds a listed monitor whose name is a candidate, and fails only when no candidate names any monitor |
| DrmMatch.FirstPartial | monitor_control/ddc.py:484-489 | the fallback finds a listed monitor whose type and the connector type contain one another, and fails only when none does |
| DrmMatch.MatchIsListed | monitor_control/ddc.py:443-491 | `Match`: a match is one of the xrandr monitors, found either by a candidate name or by the type test, and an exact candidate always wins |
| DrmMatch.UnknownTypeUsesTypeTest | monitor_control/ddc.py:461-489 | `Match`: a connector of a type without candidate names is found by the type test alone |
| DrmMatch.MatchDrmToXrandr | monitor_control/ddc.py:443-491 | the matching loops return what `DrmMatch.Match` describes, which reads connector names with the corrected expression (`ParseConnector`); `ParseConnectorExtendsAsWritten` shows it agrees with the original on every name the original reads |
| DrmMatch.HdmiConnectorUnmatchedAsWritten | monitor_control/ddc.py:454-456 | as written, the kernel's name `card1-HDMI-A-1` is not read, so no monitor is ever matched to it |
| DrmMatch.HdmiConnectorRead | monitor_control/ddc.py:454-459 | corrected, `card1-HDMI-A-1` reads as HDMI connector 1 |
| DrmMatch.HdmiConnectorMatched | monitor_control/ddc.py:454-482 | corrected, `card1-HDMI-A-1` is matched by its exact name to an xrandr output named `HDMI-A-1` or `HDMI-1` |
| Glob.StarMatchesEverything | monitor_control/window_monitor.py:71-79 | the pattern `*` accepts every name |
| Glob.LiteralMatchesOnlyItself | monitor_control/window_monitor.py:71-79 | a pattern without wildcards accepts exactly the name equal to it |
| Glob.PrefixStarMatchesPrefixes | monitor_control/window_monitor.py:71-79 | `prefix*` accepts exactly the names that start with the literal prefix |
| Glob.PatternCaseIsIrrelevant | monitor_control/window_monitor.py:73-74 | because the pattern is lowercased first, its case never matters |
| WindowMonitor.StarSelectsEveryWindow | monitor_control/window_monitor.py:71-79 | `MatchesPattern`: every window matches `*` |
| WindowMonitor.LiteralPatternSelectsByName | monitor_control/window_monitor.py:71-79 | `MatchesPattern`: a wildcard-free pattern matches a window exactly when it equals, ignoring case, its class, its instance name or its title |
| WindowMonitor.Take | monitor_control/window_monitor.py:677 | `title[:50]`: a prefix of at most 50 characters, the whole title when it is no longer |
| WindowMonitor.SameFingerprint | monitor_control/window_monitor.py:325-328 | by id, two polls differ exactly when the window id, the fullscreen flag or the maximized flag differs; by Wayland key, two windows of one class whose titles agree in the first 50 characters and whose flags agree are not told apart, and equal keys mean equal flags (the same logic recurs at lines 677-681) |
| WindowMonitor.Observe | monitor_control/window_monitor.py:319-338 | no window keeps the memory and reports nothing; a window is reported exactly when its state differs from the memory, which then becomes its state |
| WindowMonitor.ReplayNeverRepeats | monitor_control/window_monitor.py:467-489 | `Replay`: over any run of polls, no two consecutive reports have the same state, the first differs from the initial memory, and the memory is the last report's state (the same logic recurs at lines 670-695) |
| WindowMonitor.KeyedIgnoresLongTitleTail | monitor_control/window_monitor.py:676-683 | on Wayland, a window of the same class and state whose title agrees on its first 50 characters is not reported |
| WindowMonitor.ActiveWindowTracker.constructor | monitor_control/window_monitor.py:89-113 | a new monitor remembers id 0 (or key ""), not fullscreen, not maximized, and has no callback (the same logic recurs at lines 346-353, 501-522) |
| WindowMonitor.ActiveWindowTracker.StartMonitoring | monitor_control/window_monitor.py:229-240 | `start_monitoring` is ignored while monitoring; otherwise it registers the callback and starts monitoring, changing no memory (the same logic recurs at lines 448-454, 652-658) |
| WindowMonitor.ActiveWindowTracker.StopMonitoring | monitor_control/window_monitor.py:252-258 | `stop_monitoring` stops monitoring and keeps the callback and the memory (the same logic recurs at lines 459-465, 663-668) |
| WindowMonitor.ActiveWindowTracker.CheckWindowChange | monitor_control/window_monitor.py:319-338 | the callback gets the window exactly when its state differs from the recorded one, and the record becomes that state; no window changes nothing (the same logic recurs at lines 472-482, 676-690) |
| WindowMonitor.ActiveWindowTracker.Poll | monitor_control/window_monitor.py:467-489 | the polling loop delivers, in order, exactly the windows the replay of its answers reports (the same logic recurs at lines 670-695) |
| Screen.Trunc | monitor_control/screen_analyzer.py:730-733 | Python's `int()` on a float: truncation toward zero, the floor for non-negative values |
| Screen.Suggest | monitor_control/screen_analyzer.py:730-752 | the smoothed, truncated value clamped to the range: always at least `min`, at most `max` when the range is not empty, unchanged inside it and the nearer bound outside it |
| Screen.Analyze | monitor_control/screen_analyzer.py:678-763 | both suggestions lie in their configured ranges, the dark and bright flags follow the 0.6 ratio and 0.35/0.65 mean thresholds, and the statistics are passed through |
| Screen.DarkTakesPrecedence | monitor_control/screen_analyzer.py:714-727 | mostly-dark content aims at `max_contrast - 10`, even when it is also mostly bright |
| Screen.MiddleContrastBaseInRange | monitor_control/screen_analyzer.py:714-727 | content neither mostly dark nor bright has a mean between 0.35 and 0.65, so its contrast base lies between `max - 0.65·range` and `max - 0.35·range` |
| Screen.BrightnessBaseIsInverse | monitor_control/screen_analyzer.py:737-744 | the brightness base never increases as the mean increases, lies in `[min, max]` for a mean in `[0, 1]`, and is `max` at 0 and `min` at 1 |
| Screen.CropScale | monitor_control/screen_analyzer.py:175-179 | the scale of a region reaching past the capture is the smaller of the two ratios, below 1 |
| Screen.ScaleBelowOne | monitor_control/screen_analyzer.py:177-178 | an image size over a larger reach is a ratio in `[0, 1)` |
| Screen.CropBox | monitor_control/screen_analyzer.py:169-194 | a region that fits is cut exactly; a scaled one is non-empty, stays within the right and bottom edges and, from a non-negative origin, within the left and top ones; otherwise the whole capture is returned |
| Screen.Methods | monitor_control/screen_analyzer.py:301-318 | each session type has a non-empty list of capture tools, in the source's order |
| Screen.Search | monitor_control/screen_analyzer.py:320-330 | the search returns the first tool that captured, with its image, after trying the tools before it; with none, all of them were tried |
| Screen.SearchTakesFirst | monitor_control/screen_analyzer.py:320-330 | every tool tried before the one that captured failed, and without a capture every tool failed |
| Screen.IntervalFloor | monitor_control/screen_analyzer.py:875-884 | the interval is `max(2.5, v)` under Wayland and `max(0.5, v)` under X11: at least `v`, at least the floor, and one of the two |
| Screen.AtMostFiveReuses | monitor_control/screen_analyzer.py:794-807 | no more than five frames in a row return the cached analysis |
| Screen.UnchangedFramesReuse | monitor_control/screen_analyzer.py:794-800 | an unchanged screen does reuse the cached analysis until the counter reaches five |
| Screen.ScreenAnalyzer.constructor | monitor_control/screen_analyzer.py:196-249 | the interval starts at 5 s, the previous suggestions at the middle of their ranges, and every cache and counter empty |
| Screen.ScreenAnalyzer.AnalyzeImage | monitor_control/screen_analyzer.py:678-763 | returns `Analyze` of the previous suggestions, and the suggestions returned become the previous ones |
| Screen.ScreenAnalyzer.CaptureScreen | monitor_control/screen_analyzer.py:256-338 | no imaging gives nothing; Wayland uses the shared capture, cropped to the region, when there is one; a cached tool's success resets its failure count, a failure counts and gives nothing until the third, which drops the tool; then the first tool that captures becomes cached |
| Screen.ScreenAnalyzer.SearchMethods | monitor_control/screen_analyzer.py:320-330 | the tool loop logs the tools tried, caches and returns the first capture, and caches nothing when all fail |
| Screen.ScreenAnalyzer.RecordFrame | monitor_control/screen_analyzer.py:782-808 | the cached analysis is returned for an unchanged hash while fewer than five repeats were counted; otherwise the hash is remembered, the counter reset and the frame analysed |
| Screen.ScreenAnalyzer.AnalyzeScreen | monitor_control/screen_analyzer.py:765-808 | a failed capture gives nothing and leaves the frame cache alone; otherwise the frame is reused or analysed as `RecordFrame` says, over the capture that `CaptureScreen` describes |
| Screen.ScreenAnalyzer.StartMonitoring | monitor_control/screen_analyzer.py:810-843 | ignored while running or without imaging; otherwise running, with the interval through the Wayland or X11 floor and the region falling back to the constructor's |
| Screen.ScreenAnalyzer.StopMonitoring | monitor_control/screen_analyzer.py:845-851 | monitoring is stopped |
| Screen.ScreenAnalyzer.SetRegion | monitor_control/screen_analyzer.py:871-873 | the region is replaced |
| Screen.ScreenAnalyzer.SetInterval | monitor_control/screen_analyzer.py:875-884 | the interval becomes the floored value of `IntervalFloor` |
| Screen.ScreenAnalyzer.SetMonitorIndex | monitor_control/screen_analyzer.py:886-889 | the index becomes `max(1, index)`: at least 1, unchanged when already at least 1 |
| Config.ToDict | monitor_control/config.py:27-36 | the dictionary has distinct keys; each of the six settings appears under its own name exactly when it is set, with its value; no other key appears |
| Config.ToDictNamesSettings | monitor_control/config.py:27-36 | looking up `color_preset`, `brightness`, `contrast` and the three gains in the dictionary gives back each setting of the profile |
| Config.ResolvedNameReadsBack | monitor_control/config.py:63-66 | `ResolvePreset`: a preset written as a known mode name resolves to the value that `get_color_mode_name` names with that same name (when mode values are distinct); an unknown name resolves to 0 |
| Config.FromDict | monitor_control/config.py:57-86 | a mapping without `name`, `priority`, class or title patterns, `require_fullscreen` or auto flags gets `unnamed`, 0, no patterns, not fullscreen-only and inherited flags |
| Config.FromDictToDict | monitor_control/config.py:57-86 | the settings `from_dict` reads are those `to_dict` writes back, with a colour preset name resolved through the colour modes |
| Config.ParseDefault | monitor_control/config.py:142-147 | the default profile always has priority -1 and no match rules; without a `default_profile` mapping it is the built-in one, otherwise it takes the mapping's name and resolved preset (the same logic recurs at lines 205-211) |
| Config.InsertElements | monitor_control/config.py:203 | inserting a profile into the sorted list adds exactly that profile |
| Config.InsertSorted | monitor_control/config.py:203 | inserting after every profile of at least the same priority keeps the list in descending priority |
| Config.InsertKeepsOrder | monitor_control/config.py:203 | insertion keeps the relative order of the profiles of each priority, with the new one last |
| Config.SortByPriority | monitor_control/config.py:203 | the sort keeps every profile: the result is a permutation of the input |
| Config.SortIsStable | monitor_control/config.py:203 | sorting by `-priority` gives descending priority, keeps every profile (same multiset), and keeps file order among profiles of equal priority |
| Config.SortSorted | monitor_control/config.py:203 | sorting by `-priority` leaves every profile at least as high as the next one |
| Config.SortKeepsOrder | monitor_control/config.py:203 | for each priority, the profiles of that priority come out of the sort in file order (the sort is stable) |
| Config.GetColorModeName | monitor_control/config.py:263-268 | the loop returns the first name mapped to the value, or `Mode <value>` when none is (the same logic recurs at lines 795-800) |
| Config.NameLeadsBackToValue | monitor_control/config.py:263-272 | with distinct names, a value that has a name is found again by looking that name up |
| Config.ValueLeadsBackToName | monitor_control/config.py:263-272 | when no two names share a value, the name reported for a name's value is that name |
| Config.ModeValueOrZero | monitor_control/config.py:270-272 | a known name gives its value; an unknown name gives 0 |
| Config.DdcName | monitor_control/config.py:789-792 | a capability name is kept unless it contains `Unrecognized`, in which case it becomes `ModeName`'s `Mode <value>` fallback; no name given out contains `Unrecognized` |
| Config.KeepUserNames | monitor_control/config.py:778-781 | the first loop keeps every name already in the table and adds only user names whose value the monitor reports |
| Config.AddDdcNames | monitor_control/config.py:783-793 | the second loop keeps every name already in the table and adds only the capability names `DdcName` gives to reported values |
| Config.ModesFromDdc | monitor_control/config.py:775-793 | every colour-mode name is a user name whose value the monitor reports, or the name `DdcName` gives a reported value |
| Config.PutNames | monitor_control/config.py:781 | storing a name keeps every name of the table and adds only that one |
| Config.PutOffered | monitor_control/config.py:775-793 | adding an entry whose value the monitor reports keeps the table's names distinct and its values reported |
| Config.KeepUserNamesOffered | monitor_control/config.py:778-781 | the first loop keeps user names only for values the monitor reports, and keeps names distinct |
| Config.AddDdcNamesOffered | monitor_control/config.py:783-793 | the second loop adds only reported values and keeps names distinct |
| Config.ModesFromDdcOffered | monitor_control/config.py:775-793 | every colour mode built from the capabilities has a distinct name and a value the monitor reports |
| Config.PutFreshValue | monitor_control/config.py:786-793 | naming a value that no name carries yet keeps the values distinct |
| Config.AddDdcNamesDistinct | monitor_control/config.py:783-793 | a value already named is not named again, so a table whose values are distinct stays so |
| Config.DdcNameTakesOverUserName | monitor_control/config.py:775-793 | with the user's `Movie` = 5 and the monitor offering 5 as `Standard` and 7 as `Movie`, the result is only `Movie` = 7: a capability name overwrites a user name of another value |
| Config.FillMissing | monitor_control/config.py:840-843 | every listed profile gains an entry; existing entries keep their value; new entries get the current mode |
| Config.FirstNamed | monitor_control/config.py:301-304 | the index of the first profile of that name, or the list length when no profile has it |
| Config.FindNamed | monitor_control/config.py:301-304 | the search loop stops at the first profile of that name |
| Config.FirstOtherHolder | monitor_control/config.py:417-421 | the index of the first profile of another name whose class list has the class, or the list length |
| Config.FindOtherHolder | monitor_control/config.py:417-421 | the search loop stops at the first profile of another name that holds the class |
| Config.WithPreset | monitor_control/config.py:292-303 | the profile's colour preset becomes the value and nothing else of the profile changes |
| Config.WithAuto | monitor_control/config.py:333-351 | a flag given as `None` is left unchanged and a given flag is set; nothing else of the profile changes |
| Config.ReplaceNamed | monitor_control/config.py:301-304 | only the first profile of that name is replaced; every other profile keeps its value |
| Config.RemoveFirst | monitor_control/config.py:408-419 | `list.remove` takes one occurrence away: the multiset loses one copy, and the length drops by one exactly when the class was there |
| Config.RemoveClass | monitor_control/config.py:408-419 | `window_class.remove`: only the class list changes, its title patterns and every other field are kept, and it loses one copy of the class |
| Config.AddClass | monitor_control/config.py:433-447 | `window_class.append`: only the class list changes, it gains one copy of the class, at the end |
| Config.RemoveElsewhere | monitor_control/config.py:405-421 | on parsed records: the default profile loses the class unless it is the target; the first other profile holding it loses it too; nothing else changes, and names and order are kept. The updates of the raw mappings (lines 410-414, 424-428) are in `AddAppLoaded` |
| Config.MoveReply | monitor_control/config.py:465-472 | with no source the reply is `added`, otherwise `moved_from:<source>`, never a refusal reply |
| Config.Place | monitor_control/config.py:430-472 | on parsed records: the class is appended to the target; the call succeeds exactly when the target is `default` or some profile has its name; otherwise the reply is `profile_not_found` and nothing is appended. The second append through the raw mapping (lines 450-458) is in `AddAppLoaded` |
| Config.PlaceReachesTarget | monitor_control/config.py:430-459 | placing keeps every profile name, and after a successful placement the target has the class |
| Config.PlaceLeavesOthers | monitor_control/config.py:430-459 | placing changes no profile of another name, and the default profile only when it is the target |
| Config.Names | monitor_control/config.py:395-398 | the name list has the profiles' names, position by position |
| Config.AddApp | monitor_control/config.py:384-472 | the corrected `add_app_to_profile` on records sharing no list with the raw mappings keeps every profile name, in order, and the default profile's name |
| Config.SameNamesSameSearch | monitor_control/config.py:395-398 | two profile lists with the same names find the same profile by name |
| Config.AddAppOutcomes | monitor_control/config.py:384-472 | a blank class is refused with nothing changed; `already_present` changes nothing; `profile_not_found` comes back exactly when the target is unknown; on success the target has the class; names and order are kept |
| Config.RemoveSole | monitor_control/config.py:408-419 | removing a class held at most once leaves the profile without it |
| Config.RemovalClears | monitor_control/config.py:405-421 | when at most one profile held the class, and that once, the removal leaves no other profile holding it |
| Config.AddAppMoves | monitor_control/config.py:404-472 | when before the call at most one profile held the class at most once, a successful call leaves it in the target and in no profile of another name, the default included unless it is the target |
| Config.AddAppNotFoundStillRemoves | monitor_control/config.py:405-463 | a move to a profile that does not exist reports `profile_not_found` but has already taken the class away from the default profile |
| Config.OtherClassKept | monitor_control/config.py:408-447 | removing or appending one class does not change how often any other class occurs |
| Config.AddAppKeepsOtherClasses | monitor_control/config.py:384-472 | every other window class occurs in every profile exactly as often as before |
| Config.AddAppPlacesOnce | monitor_control/config.py:384-472 | corrected, when at most one profile held the class at most once, a successful move leaves the class exactly once in the target |
| Config.FirstInFile | monitor_control/config.py:451-458 | the loop over the raw mappings stops at the target's first mapping in file order, or finds none |
| Config.RemoveFromShared | monitor_control/config.py:424-428 | the raw removal takes one copy of the class from every profile of another name whose list is its mapping's own; every other profile is untouched |
| Config.AppendInFile | monitor_control/config.py:451-458 | the raw append reaches a parsed profile only through the target's first mapping in file order, when that profile shares its list; names are kept |
| Config.AddAppLoaded | monitor_control/config.py:384-472 | `add_app_to_profile` as written on profiles read from the file, with the raw mappings' updates reaching the lists they share; names and order are kept |
| Config.RemoveFirstAbsent | monitor_control/config.py:426-428 | removing a class that is not in the list leaves it as it was |
| Config.SharedRemovalNothingLeft | monitor_control/config.py:424-428 | after the parsed-record removal, when one profile held the class, the raw removal finds nothing more to remove |
| Config.LoadedAddAppAddsOneMore | monitor_control/config.py:384-472 | as written, on loaded records the outcome is the corrected one with one more copy of the class at the end of the target's list |
| Config.LoadedTargetGetsClassTwice | monitor_control/config.py:447-458 | with `A` = [firefox] and `B` = [code] read from the file, moving `firefox` to `B` reports `moved_from:A` and leaves `B` = [code, firefox, firefox], where the corrected call leaves [code, firefox] |
| Config.Config.constructor | monitor_control/config.py:140-147 | no colour modes, no profiles, and the built-in default profile (priority -1, brightness 40, contrast 50) |
| Config.Config.ParseProfiles | monitor_control/config.py:191-211 | the profiles are the mappings read in file order and then sorted by descending priority; the default profile is read as `ParseDefault` says |
| Config.Config.SetProfileColorMode | monitor_control/config.py:285-305 | an unknown mode name gives False with nothing changed; otherwise the default profile, or else the first profile of that name, gets the mode's value as its preset, no other profile changes, and the reply is the outcome of saving |
| Config.Config.SaveProfileAutoSettings | monitor_control/config.py:331-361 | the default profile, or else the first profile of that name, gets the given flags; nothing else changes; the reply is the outcome of saving |
| Config.Config.AddAppToProfile | monitor_control/config.py:384-472 | the reply and both profile stores are as the corrected `AddApp` says (class lists not shared with the raw mappings), so `AddAppOutcomes`, `AddAppMoves` and `AddAppKeepsOtherClasses` hold of them |
| Config.Config.RemoveApp | monitor_control/config.py:404-421 | the in-place removal step on the parsed records leaves the stores and the reported source as `RemoveElsewhere` says |
| Config.Config.PlaceApp | monitor_control/config.py:430-472 | the in-place placing step on the parsed records leaves the stores and the reply as `Place` says |
| Config.MonitorConfig.constructor | monitor_control/config.py:615-627 | no colour modes and no per-profile colour modes or presets |
| Config.MonitorConfig.SetColorModesFromDdc | monitor_control/config.py:775-793 | the two loops build exactly `ModesFromDdc`, whose values are all reported and whose names are distinct (`ModesFromDdcOffered`) |
| Config.MonitorConfig.GetColorModeValue | monitor_control/config.py:802-804 | a value comes back exactly when the name is known; otherwise `None` |
| Config.MonitorConfig.ProfileColorModeName | monitor_control/config.py:810-815 | a profile without a colour mode gives `Unknown`; otherwise the name of its mode value |
| Config.MonitorConfig.SetProfileColorMode | monitor_control/config.py:817-820 | only that profile's colour mode changes |
| Config.MonitorConfig.SetProfileColorPreset | monitor_control/config.py:826-829 | only that profile's colour preset changes |
| Config.MonitorConfig.InitializeProfileColorModes | monitor_control/config.py:840-843 | the loop gives every listed profile without a colour mode the current mode and never overwrites one (`FillMissing`) |
| Profiles.AtMostOneManagerClaims | monitor_control/profile_manager.py:224-242 | `OnMonitor`: managers of distinct displays with pairwise non-overlapping monitors never both claim a window; a window without geometry is claimed by the display-1 manager only |
| Profiles.FirstMatch | monitor_control/profile_manager.py:386-399 | the index of the first profile whose class or title patterns select the window, or the list length when none does |
| Profiles.MatchesAnyClass | monitor_control/profile_manager.py:388-392 | the loop answers true exactly when some class pattern of the list matches the window |
| Profiles.MatchesAnyTitle | monitor_control/profile_manager.py:395-399 | the loop answers true exactly when some title pattern matches the title, case ignored |
| Profiles.FindMatchingProfile | monitor_control/profile_manager.py:386-401 | the loops return the first profile in configuration order that selects the window, else the default profile |
| Profiles.ColorValues | monitor_control/profile_manager.py:473-493 | a combined value of 0x1000 or more is a 0x14 preset less the offset, a smaller one a 0xDC mode; a separately stored preset always wins for 0x14 |
| Profiles.ColorValuesInvertCombinedValue | monitor_control/profile_manager.py:481-493 | for a colour mode offered as (code, value) by the capability list, the decoding writes that value back to that code, as the channel's `set_color_mode` does |
| Profiles.OtherCodeUnaffected | monitor_control/profile_manager.py:503-532 | writing one colour code leaves the write decision for the other code as it was, so the 0x14 decision may be taken against the cache before the 0xDC write |
| Profiles.NegativeNeverWritten | monitor_control/profile_manager.py:503-533 | the -1 placeholder and any other negative value are never written, forced or not |
| Profiles.ReapplyIsSuppressed | monitor_control/profile_manager.py:503-532 | once both colour writes went through or were not needed, applying the same colours again unforced sends nothing and leaves the cache as it is |
| Profiles.AdaptiveStepSendsOnChange | monitor_control/profile_manager.py:324-362 | `AdaptiveStep`: a brightness write is dispatched exactly when auto brightness is on and the suggestion differs from the last value sent, contrast likewise; nothing else is dispatched; the last values sent are updated; the payload carries the screen statistics |
| Profiles.StepBrightness | monitor_control/profile_manager.py:328-340 | one analysis dispatches the suggested brightness exactly when auto brightness is on and it differs from the last value sent |
| Profiles.NoRepeatsSnoc | monitor_control/profile_manager.py:331 | appending a brightness different from the last one keeps a run free of consecutive repeats |
| Profiles.AdaptiveRunNeverRepeats | monitor_control/profile_manager.py:328-340 | `AdaptiveStep`: over any run of analyses the same brightness is never dispatched twice in a row, and the last brightness dispatched is the one remembered as last sent |
| Profiles.ProfileManager.constructor | monitor_control/profile_manager.py:61 | the geometry is the channel's answer; no active profile, window or analysis; auto brightness and contrast off; auto profile from the configuration; not running; shown in the window; nothing sent yet; the given window tracker and screen analyzer (the same logic recurs at lines 95-119) |
| Profiles.ProfileManager.ApplyProfile | monitor_control/profile_manager.py:403-542 | the already-active profile without force changes nothing; otherwise the switch happens as `SwitchTo` says |
| Profiles.ProfileManager.SwitchTo | monitor_control/profile_manager.py:426-542 | the profile's auto flags override the manager's; the observers hear of it while the window is shown; each colour code is written when its value is non-negative and forced, uncached or different; the profile becomes active unless the 0xDC write failed |
| Profiles.ProfileManager.TakeOver | monitor_control/profile_manager.py:426-449 | a profile flag that is set overrides the manager's; an unset one keeps it; the observers hear of the profile only while the window is shown |
| Profiles.ProfileManager.WriteColors | monitor_control/profile_manager.py:498-539 | both colour writes happen as `ColorsWritten` says, 0xDC before 0x14, and the profile counts as applied exactly when the 0xDC write did not fail |
| Profiles.ProfileManager.WriteColor | monitor_control/profile_manager.py:503-514 | one code is sent unverified and forced exactly when a write is needed; the cache is updated only by a write that went through; nothing is sent otherwise |
| Profiles.ProfileManager.OnWindowChange | monitor_control/profile_manager.py:255-311 | the window is reported, or `None` when it is on another monitor; a profile is applied unforced exactly when auto profile is on, the window is not the application's own, it is on this monitor, the fullscreen-only gate passes and the matching profile is not the active one; otherwise nothing else changes |
| Profiles.ProfileManager.OnScreenAnalysis | monitor_control/profile_manager.py:313-372 | the analysis is kept; the last values sent and the dispatched writes follow `AdaptiveStep`; the settings observers hear the change only while the window is shown |
| Profiles.ProfileManager.SetProfile | monitor_control/profile_manager.py:546-568 | the first profile of that name, else the default profile for `default`, is applied unforced and True is returned; an unknown name returns False with nothing changed |
| Profiles.ProfileManager.Start | monitor_control/profile_manager.py:121-137 | a running manager is left as it is, window tracker included; otherwise it runs, the window tracker is started with `_on_window_change` as its observer (unless it was already running), and the default profile is applied |
| Profiles.ProfileManager.Stop | monitor_control/profile_manager.py:139-144 | the manager, its window tracker and its screen analyzer are all stopped |
| Profiles.ProfileManager.SetAutoBrightnessEnabled | monitor_control/profile_manager.py:570-589 | the flag is set; when asked to save and a profile is active, the active profile takes the flag and the configuration stores it under that profile's name; otherwise no profile changes |
| Profiles.ProfileManager.SetAutoContrastEnabled | monitor_control/profile_manager.py:591-610 | the same for auto contrast |
| Profiles.ProfileManager.SetAutoProfileEnabled | monitor_control/profile_manager.py:632-635 | the auto-profile flag is set |
| Profiles.ProfileManager.SetFullscreenOnly | monitor_control/profile_manager.py:641-644 | the fullscreen-only flag is set |
| Profiles.ProfileManager.SetColorSource | monitor_control/profile_manager.py:684-703 | the colour callbacks answer from the given monitor configuration from now on |
| Profiles.ProfileManager.SetGuiActive | monitor_control/profile_manager.py:715-727 | the shown-in-window flag is set |
| App.DisplayNameShape | main.py:540-549 | every tab name starts with the model when it is known, else with the manufacturer when that is known, else with `Unknown Monitor`, and ends with ` (Display n)` |
| App.DisplayName | main.py:540-549 | every tab name ends with ` (Display n)` after a non-empty base name |
| App.SuffixDigitsAgree | main.py:548 | two tab names that are equal carry the same display digits in their suffix |
| App.DisplayNamesDistinct | main.py:540-549 | monitors with different display numbers get different tab names, whatever their models |
| App.MonitorList | main.py:540-549 | the loop lists every monitor, in order, with its display number and its tab name |
| App.MonitorListNamesDistinct | main.py:540-549 | distinct display numbers give a monitor list whose tab names are pairwise distinct |
| App.Missing | main.py:606-607 | a profile name is listed as missing exactly when it is among the names and has no entry in the table |
| App.ReadCurrent | main.py:615-627 | the value is the current value read, or -1 when the read fails; a feature known to be unsupported is not asked for |
| App.SetMissingModes | main.py:629-633 | the loop gives every profile without a colour mode the value, and keeps every existing entry |
| App.SetMissingPresets | main.py:636-640 | the loop gives every profile without a colour preset the value, and keeps every existing entry |
| App.InitProfileColors | main.py:604-643 | when some profile lacks a mode or preset and the channel is in use, 0xDC and 0x14 are read once each and every missing entry gets the value read or -1; existing entries are kept; otherwise nothing is read or changed |
| App.FirstWithPreset | main.py:1673-1677 | the index of the first profile of that name that has a colour preset, or the list length |
| App.ModeNamesMeaning | main.py:1654-1679 | the dictionary has exactly the listed profiles for which some table gives a value, each with the name `NameFor` gives it |
| App.NameFallback | main.py:1660-1677 | the monitor's own entry wins; otherwise the default profile's preset, or the preset of the first profile of that name that has one, is named with the global mode names; a profile with neither gets no entry |
| App.GetProfileColorModes | main.py:1648-1679 | the loop over `default` and the profile names builds exactly the dictionary `ModeNamesMeaning` describes |
| App.LookUpName | main.py:1661-1677 | the loop body gives each profile name the entry `NameFor` gives it |
| App.StoreEdit | main.py:1587-1595 | a combined value from 0x1000 on is stored as the profile's 0x14 preset less the offset, any other as its 0xDC mode; only that table and only that profile's entry change |
| App.ForcedModeIsSent | main.py:1600-1610 | a forced application of a profile whose monitor entry holds a non-negative 0xDC mode sends it, and after success the cache holds it |
| App.ForcedPresetIsSent | main.py:1600-1610 | a forced application of a profile with a non-negative stored 0x14 preset sends it, and after success the cache holds it |
| App.ProfileModeChange | main.py:1580-1614 | without a monitor configuration or with an unknown mode name nothing is stored or applied; otherwise the edit is stored as `StoreEdit` says, and the profile is applied again with force exactly when it is the active one, the default profile when none is active; the edited code is then sent |
| App.RequestRecordsLatest | main.py:1071-1080 | a request always records the latest value and writes nothing; while a writer is pending for the key that is all it does, otherwise it marks the key pending and starts a writer for the value, leaving other keys alone |
| App.RequestKeepsValid | main.py:1071-1080 | a request keeps the invariant that a writer runs exactly while its key is pending |
| App.SendStep | main.py:1082-1088 | without a controller the key is freed and nothing is written; otherwise exactly one write, of the latest value, goes to the display's channel (gains included, as corrected), and the writer moves to its re-check or, for the one-shot settings, to finishing; latest values and other keys are untouched |
| App.RecheckStep | main.py:1089-1093 | the re-check as written: a latest value other than the one sent is written once more to the same channel, otherwise nothing is written; either way the writer goes on to finish, and nothing else changes |
| App.FinishStep | main.py:1094-1095 | the `finally` frees the key and ends its writer; writes, latest values and other keys are untouched |
| App.SendKeepsValid | main.py:1082-1088 | the first write keeps that invariant |
| App.RecheckKeepsValid | main.py:1089-1093 | the re-check keeps that invariant |
| App.FinishKeepsValid | main.py:1094-1095 | the `finally` keeps that invariant |
| App.WriterSendsLatestOnce | main.py:1066-1164 | for brightness, contrast and sharpness, a value requested during the write is written exactly once more after the first, unless it equals it; afterwards the key is free and holds the newer value |
| App.LateRequestIsNotWritten | main.py:1089-1095 | as written the re-check happens once: a value requested during the re-send is recorded but never written, and the key is left free holding it |
| App.RecheckUntilLatestKeepsValid | main.py:1089-1095 | the repeated re-check keeps the invariant that a writer runs exactly while its key is pending |
| App.RecheckUntilLatest | main.py:1089-1095 | the corrected re-check: while the latest value differs from the one last sent it is written to the same channel and the writer stays; otherwise the key is freed with nothing written; other keys untouched |
| App.FreedOnlyWhenLatestSent | main.py:1089-1095 | with the re-check repeated, a key is freed exactly when the value last sent is the latest, and every re-send carries the latest value |
| App.LateRequestIsWritten | main.py:1089-1095 | with the re-check repeated, a value requested during the re-send is written next, and only then is the key freed |
| App.OneShotWritesOnce | main.py:1168-1192 | the colour-mode and gain writers, with the gains written as corrected (`SendStep`), write the latest value once; a value requested meanwhile is recorded and not written by that writer |
| App.NoChannelNoWrite | main.py:1084-1085 | with neither a controller for the display nor a fallback controller a writer writes nothing and frees its key |
| App.GainChangeLostAsWritten | main.py:1194-1261 | as written, a gain change frees its key and never reaches the monitor, because the channel has no gain setters |
| App.SendStepAsWritten | main.py:1194-1261 | as written, a gain writer writes nothing and frees its key; every other writer behaves as `SendStep` |
| App.GainChangeWritten | main.py:1194-1261 | with the gain codes written like the other settings, a gain change reaches the display's channel, clamped to 0..100 |
| App.Coalescer.constructor | main.py:1066-1261 | no latest values, nothing pending, no writer running, nothing written |
| App.Coalescer.Request | main.py:1066-1080 | the display defaults to the fallback controller's display, else 1; the state afterwards is `RequestStep`; a writer is started exactly when none was pending |
| App.Coalescer.Free | main.py:1094-1095 | the key is no longer pending and its writer is gone |
| App.Coalescer.WriterSend | main.py:1082-1088 | the writer's first step leaves the state `SendStep` describes |
| App.Coalescer.WriterRecheck | main.py:1089-1095 | the re-check, corrected to repeat until the latest value is sent, leaves the state `RecheckUntilLatest` describes; the re-check as written is `RecheckStep` |
| App.Coalescer.WriterFinish | main.py:1094-1095 | the `finally` leaves the state `FinishStep` describes |

## Left out

- Subprocesses: `ddcutil`, `xrandr`, the screen-capture tools, `xdotool`, `xprop` and `gsettings` are not invoked. Their outputs are inputs, or they are oracle functions passed as parameters.
- `Xrandr.GetXrandrMonitors` and `Detect.DetectMonitors`: a missing `xrandr` or `ddcutil` binary makes `subprocess.run` raise `FileNotFoundError`, an `OSError`. The source catches only `subprocess.SubprocessError` (`monitor_control/ddc.py:438` and `:590`), so that error propagates out of `detect_monitors`. The model treats it as a failed run: no xrandr monitors, or no detected monitors.
- `DdcChannel.DdcController.RunDdcutil`: an attempt is completed, failed or timed out. A missing `ddcutil` binary makes the first attempt raise `FileNotFoundError`, which `_run_ddcutil` does not catch; busy(False) is still sent by its `finally`. The model has no such outcome.
- `Profiles.ProfileManager.Start` and `Profiles.ProfileManager.Stop`: the monitoring threads are not modelled. The window changes the tracker delivers reach `Profiles.ProfileManager.OnWindowChange` through the caller, which may call it whether or not the manager was started. `Profiles.ProfileManager.constructor` takes the screen analyzer as given; building one from the adaptive-contrast settings when none is passed (`monitor_control/profile_manager.py:79-93`) is not modelled.
- Timing: the rate limit between `ddcutil` runs, `time.sleep`, command timeouts and the monitor loops' polling intervals are not modelled. Time has no meaning in the model.
- Concurrency: the per-channel `_lock` and the worker threads are not modelled. Each writer thread of the coalescers becomes a sequence of step methods, called in whatever order a scheduler picks. The profile manager's background dispatch is recorded in an event log.
- Reuse of an unchanged frame: `Screen.AtMostFiveReuses` states the code's bound, five consecutive reuses of the cached analysis (`monitor_control/screen_analyzer.py:794-807`). Smoothing truncates with `int()` (`monitor_control/screen_analyzer.py:730-733`), which `Screen.Trunc` models as truncation toward zero; no rounding is modelled.
- Files: YAML loading and saving, file paths, `get_or_create`, and `MonitorConfig.load`/`_parse_config` are not modelled. The result of `save()` is a boolean parameter.
- `Config.Config.AddAppToProfile`: the class uses the corrected `Config.AddApp`, in which no parsed profile shares its class list with the raw `_data` mappings. In the source a profile read from the file holds its mapping's own list (`monitor_control/config.py:72`), so the updates of `_data` at lines 410-414, 424-428 and 450-458 reach it too. `Config.AddAppLoaded` models that as written, and the fifth Findings row shows the effect. The class does not track which lists are shared.
- `Config.AddAppLoaded`: a mapping is taken to have a `name` key and to parse without an exception; a mapping without a name would be compared as `None` in the raw loops but as `unnamed` in the parsed ones. The other mirror updates of `_data` (default profile creation, `set_profile_color_mode` and `save_profile_auto_settings`) are not modelled, because nothing in the model reads `_data`.
- The rest of `_parse_config` is not modelled: adaptive contrast, GUI and app-state settings. The `try`/`except` around `from_dict` is not modelled either, because the model's input is already typed.
- `Config.set_profile_auto_settings` (`monitor_control/config.py:474`) is not modelled. Only `save_profile_auto_settings` is.
- Screen statistics: numpy and PIL computations are not modelled. The mean, spread and dark and bright ratios are inputs, and the sample hash is an opaque value. The shared capture cache `_get_shared_capture` is not modelled.
- `Glob.Matches`: bracket classes (`[...]`) of `fnmatch` are not modelled. Only `*` and `?` are, with ASCII case folding.
- `Text.Strip`: only the six characters of `Text.IsSpace` are stripped: space, `\t`, `\n`, `\r`, `\v` (11) and `\f` (12). Python's `str.strip` also strips `\x1c`-`\x1f`, `\x85` and Unicode spaces. `Text.Lower` folds ASCII letters only, because Unicode case mapping is outside the model.
- Character classes: Python's `\s`, `\d`, `\w` and `str.isalnum` accept Unicode letters, digits and spaces. The model accepts ASCII letters and digits only. For `\s` it accepts exactly the six characters of `Text.IsSpace` (space, `\t`, `\n`, `\r`, `\v`, `\f`), not `\x1c`-`\x1f`, `\x85` or Unicode spaces. This holds in `VcpReply`, `Capabilities`, `Xrandr`, `DrmMatch` and `Ddc.Sanitise`.
- Xrandr scale: the source computes the scale as a float division. The model uses exact reals, so `Xrandr.ConnectedConsistent`, `Xrandr.NativeModeConsistent`, `Xrandr.StepConsistent`, `Xrandr.RunConsistent` and `Xrandr.MonitorsConsistent` state `scale * native == framebuffer` exactly, which floating point need not meet.
- `Screen.Suggest`: the smoothing `smoothing * last + (1 - smoothing) * base` is computed in exact reals, where the source uses Python floats. When the exact value is a whole number, the float can fall just below or above it (`1 - 0.7` is `0.30000000000000004`), so the source's `int()` can give one less or one more than `Screen.Trunc`. The clamping to the range is unaffected. `Screen.ScreenAnalyzer.AnalyzeImage`, `CaptureScreen` and `AnalyzeScreen` inherit this.
- `Screen.Analyze`: its two suggestions come from `Screen.Suggest`, with the same exact-real smoothing. The source's value can differ by one near a whole number. The ranges, flags and passed-through statistics are unaffected.
- `Screen.CropScale`: the ratios `img_w / (x + w)` and `img_h / (y + h)` are exact reals, not float divisions. The bounds `0 <= scale < 1` hold for both.
- `Screen.CropBox`: it truncates exact-real products where the source truncates float products. Near a whole number, a scaled origin or size can be one pixel off from the source's, and the box one pixel smaller or larger. The containment within the capture is unaffected, because the size is clamped afterwards.
- Window-system back-ends: Xlib, AT-SPI and wnck are not modelled, including how the maximized-in-both-directions flag is computed. Window properties are inputs.
- `ProfileManager.get_state` is not modelled, because it reads attributes the class never sets.
- `ProfileManager._update_screen_monitoring` is not modelled.
- Adding and removing profile-manager callbacks is not modelled. The callbacks' calls are recorded in logs.
- Active-profile aliasing: the source's active profile is the same object as the configuration's profile record. `Profiles.ProfileManager.SetAutoBrightnessEnabled` and `Profiles.ProfileManager.SetAutoContrastEnabled` update both explicitly, which matches the source when the active profile is the first profile of its name. `Config.Config.SetProfileColorMode` and `Config.Config.AddAppToProfile` update only the configuration's records; a profile manager's active copy of the same profile is not updated by them.
- `DDCController` members outside the core are not modelled:
  - `refresh_geometry` (the geometry is a constructor input) and `get_geometry`;
  - `get_monitor_info`, `_build_display_args` and `_get_command_description`;
  - the plain `get_*` getters, `get_sharpness_info`, `set_color_preset`, `get_all_settings` and `apply_settings`;
  - `MonitorGeometry.scale_percent`;
  - `check_ddcutil_available` and `check_i2c_permissions`.
- `DdcChannel.DdcController.GetVcp` and `DdcChannel.DdcController.FetchVcp`: the reply is read in the corrected order, hexadecimal form first (`VcpReply.ParseReply`). As written, a hexadecimal reply is misread as current value 0, maximum 0 (`VcpReply.HexReplyMisreadAsWritten`, first Findings row).
- `Detect.DetectMonitors` and `Detect.FinishRecord`: the geometry comes from the corrected connector expression (`DrmMatch.Match`). As written, an `HDMI-A` connector gets no geometry (`DrmMatch.HdmiConnectorUnmatchedAsWritten`, second Findings row). `DrmMatch.MatchAsWritten` is the original matching.
- `DrmMatch.MatchDrmToXrandr`: its loops are proved against the corrected `DrmMatch.Match`, not against `DrmMatch.MatchAsWritten`.
- `App.Coalescer.WriterRecheck`: the method performs the corrected, repeated re-check (`App.RecheckUntilLatest`). The re-check as written is `App.RecheckStep`, whose lost update is the fourth Findings row. The class has no method for the written re-check.
- `App.Coalescer.WriterSend` and `App.OneShotWritesOnce`: the gain writers write their codes as corrected (`App.SendStep`). As written they write nothing (`App.SendStepAsWritten`, third Findings row).
- `App.ProfileModeChange`: how the handler picks its display and configuration (`main.py:1571-1578`) is left to the caller. The handler's thread runs to completion.
- `App.Coalescer`: a write is recorded as the call handed to the channel. The results and exceptions of the `set_*` call are not modelled. The mode name that the Mode writer passes to `set_color_mode` (`main.py:1188`) is only logged and is not modelled.
- GUI parts of `main.py` are not modelled: `_on_vcp_change`, the refresh handlers and other GUI callbacks, everything in `_populate_monitors` beyond tab names and colour-table initialisation, the overlay, argument parsing and signal handling.

## Findings

| source | as written | input that shows it | evidently intended | confidence | as-written member | corrected member |
|---|---|---|---|---|---|---|
| monitor_control/ddc.py:667-705 | the decimal reply pattern is tried first; it matches the hexadecimal reply form and reads the digits before the `x` | `VCP code 0x10 (Brightness): current value = 0x05, max value = 0x0b` is read as current 0, maximum 0 | a hexadecimal reply is read as hexadecimal | not executed | VcpReply.HexReplyMisreadAsWritten | VcpReply.HexReplyReadCorrectly |
| monitor_control/ddc.py:454 | the connector pattern `card\d+-(\w+)-(\d+)` has one word group, which cannot span the dash in `HDMI-A` | connector `card1-HDMI-A-1` is not matched, so no output gets the bus | `card1-HDMI-A-1` reads as HDMI connector 1 and matches an output named `HDMI-A-1` or `HDMI-1` | not executed | DrmMatch.HdmiConnectorUnmatchedAsWritten | DrmMatch.HdmiConnectorMatched |
| main.py:1194-1261 | the gain writers call `set_red_gain`, `set_green_gain` and `set_blue_gain`, which `DDCController` does not define (it has only the getters, `monitor_control/ddc.py:926-936`); the call raises and the `finally` frees the key | moving the red-gain slider to 60 | the gain is written to VCP 0x16, 0x18 or 0x1A, clamped to 0..100 | not executed | App.GainChangeLostAsWritten | App.GainChangeWritten |
| main.py:1089-1095 | the brightness, contrast and sharpness writers re-check the latest value once; a value requested during the re-send finds the key pending and is never written (same at 1121-1126 and 1159-1164) | brightness requests 10, then 20 during the first write, then 30 during the re-send: 10 and 20 are written and the monitor stays at 20 | the running writer picks up the latest value, so the last value requested is the last one written | not executed | App.LateRequestIsNotWritten | App.LateRequestIsWritten |
| monitor_control/config.py:447-458 | a profile read from the file holds its mapping's own class list (line 72), so appending to the parsed profile and then to the mapping appends to the same list twice; the raw removal at 424-428 likewise reaches the parsed lists | profiles `A` = [firefox] and `B` = [code] loaded from the file; `add_app_to_profile("firefox", "B")` leaves `B` = [code, firefox, firefox] | the target holds the class once | not executed | Config.LoadedTargetGetsClassTwice | Config.AddAppPlacesOnce |
