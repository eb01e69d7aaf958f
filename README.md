# monitor — a verified model of its core

`monitor` is a Rust server-monitoring tool. It prints JSON reports: system
metrics, processes with many threads, and kernel ring-buffer messages. It
can repeat these reports on an interval, and it can bridge a WebSocket
client to a local shell. This project models the tool's logic in Dafny and
proves what that logic promises:

- **Shell bridge** (`socket_shell.dfy`).
  - The session registry and its two updates.
  - The outbound pump: an item shaped like a JSON object is passed through
    verbatim; anything else is wrapped as an `output` envelope.
  - Inbound dispatch of client frames.
  - The stdout pump: it extracts `__SYSTEM_INFO__:` marker lines into
    `system` envelopes.
  - The stderr pump.
  - The stdin task: it primes the shell with `cd` and a probe, and sends a
    probe after every line of input.
- **Kernel messages** (`dmesg.dfy`).
  - The `[  secs.micros]` timestamp parser.
  - The filter that keeps only lines newer than a cursor.
  - The cursor the collector hands back.
- **Processes** (`process.dfy`).
  - `format_memory`.
  - The saturating runtime and its `h:mm:ss` text.
  - The `u32`/`i32` casts.
  - The ten-row thread cap.
  - The thread-count default of 1.
  - The filter that reports only processes with at least twenty threads.
- **Metrics** (`metrics.dfy`).
  - The disk-usage fold with saturating subtraction.
  - The block-device statistics filter and its sums.
- **Server identifier** (`util.dfy`).
- **Main program** (`monitor.dfy`).
  - The `monitor` interval and its zero check.
  - The loop, with its dmesg cursor and printing rules.
  - The `getAllData` fallback to `{}`.

Shared pieces:

- `text.dfy` models the Rust string operations the code relies on: `lines`,
  `split`, `trim`, `split_whitespace`, and integer parsing and printing.
- `io.dfy` models a writable endpoint. Each endpoint is given up front the
  set of call numbers that fail.
- `wrappers.dfy` holds `Option` and `Result`.

Loops that the source runs in place are methods with loop invariants. Each
is proved against a back-recursive specification function. The properties
are lemmas about those functions.

## Model

| member | source | states |
|---|---|---|
| SocketShell.EncodeIsJsonObject | src/socket_shell.rs:13-28 | every serialized envelope starts with `{` and ends with `}` |
| SocketShell.OutboundFrame | src/socket_shell.rs:65-83 | what the outbound task sends for one channel item; its meaning is stated in `SocketShell.OutboundFrameClassifies` |
| SocketShell.OutboundFrameClassifies | src/socket_shell.rs:65-83 | an item goes out unchanged exactly when it starts with `{` and ends with `}`; otherwise it is wrapped, and the frame sent is always object-shaped; wrapping is idempotent |
| SocketShell.Dispatch | src/socket_shell.rs:93-107 | a frame is forwarded exactly when it is a text frame that decodes with type `input` or `request_system_info`; `input` forwards its data, the other forwards the probe command |
| SocketShell.InboundPump | src/socket_shell.rs:92-111 | the inbound loop forwards exactly the dispatched frames, in order |
| SocketShell.ForwardedConcat | src/socket_shell.rs:93-110 | forwarding is per frame: frames split anywhere forward the concatenation of the two parts |
| SocketShell.RequestSystemInfoProbesTwice | src/socket_shell.rs:101-104 | a `request_system_info` frame forwards the probe, and since the probe holds a newline the stdin task writes it and then another probe |
| SocketShell.FindMarkerLine | src/socket_shell.rs:160 | the line found holds the marker and is one of the lines; none found means no line holds it |
| SocketShell.FindMarkerLineSkips | src/socket_shell.rs:160 | the first line holding the marker is the one found |
| SocketShell.StdoutEnvelope | src/socket_shell.rs:158-197 | one envelope per chunk, stamped with the read time: `system` with info only when the chunk holds the marker, else `output` carrying the whole chunk |
| SocketShell.ParseChunk | src/socket_shell.rs:158-168 | the system info of a stdout chunk: the parse of its first marker line; stated in `SocketShell.MarkerLineDecides` and `SocketShell.ProbeRoundTrip` |
| SocketShell.ProbeLineParts | src/socket_shell.rs:161 | the echoed probe line, with colon-free fields, splits at `:` into the tag and the four fields |
| SocketShell.ProbeLineParses | src/socket_shell.rs:161-168 | a probe line with plain fields parses back into exactly that system info |
| SocketShell.ParseMarkerLine | src/socket_shell.rs:161-168 | a marker line split at `:` gives the four trimmed fields when it has five parts or more; stated in `SocketShell.ParseFiveParts` and `SocketShell.ExtraFieldsIgnored` |
| SocketShell.ParseFiveParts | src/socket_shell.rs:162-168 | parts 1–4, trimmed, become pwd, user, hostname and shell |
| SocketShell.ChunkLines | src/socket_shell.rs:160 | the lines of a chunk built from lines are those lines |
| SocketShell.MarkerLineDecides | src/socket_shell.rs:158-168 | with no earlier marker line, the first marker line alone decides the chunk's system info |
| SocketShell.MarkerChunkEnvelope | src/socket_shell.rs:170-180 | a chunk whose first marker line parses becomes only the `system` envelope; its other text is dropped |
| SocketShell.ProbeRoundTrip | src/socket_shell.rs:158-180 | a stdout chunk holding the echoed probe, after plain lines, yields the `system` envelope with the probed info |
| SocketShell.ExtraFieldsIgnored | src/socket_shell.rs:162-168 | fields after the fifth do not change the parsed info |
| SocketShell.FirstMarkerLineDecides | src/socket_shell.rs:158-191 | when the first marker line has fewer than five fields, the whole chunk goes out as `output`, even if a later line would parse |
| SocketShell.ColonInPathShiftsFields | src/socket_shell.rs:161-167 | a working directory containing `:` shifts the fields: the second half of the path is taken as the user, the user as the host name, and the host name as the shell |
| SocketShell.ChunkEnvelope | src/socket_shell.rs:213-222 | stderr chunks are always wrapped as `output` |
| SocketShell.PumpTurn | src/socket_shell.rs:151-199 | one read: a chunk sends its envelope; a failed send stops the pump, except that a failed `system` send is ignored; EOF or a read error stops it |
| SocketShell.ReadPump | src/socket_shell.rs:147-233 | the channel receives exactly what the pump specification sends for the reads |
| SocketShell.PumpRunStopped | src/socket_shell.rs:194-199 | once the pump has stopped, later reads change nothing |
| SocketShell.PumpSendsObjects | src/socket_shell.rs:147-233 | everything a read pump sends is object-shaped |
| SocketShell.PumpItemsPassVerbatim | src/socket_shell.rs:65-69 | so the outbound pump forwards every pumped item unchanged |
| SocketShell.PumpSendsEveryChunk | src/socket_shell.rs:151-198 | when no send fails and every read is a chunk, each chunk's envelope is sent, in order |
| SocketShell.PumpEndsAtEof | src/socket_shell.rs:150-200 | nothing read after EOF or an error is sent |
| SocketShell.WriteInput | src/socket_shell.rs:248-267 | one input: write and flush it; if it holds a newline, write and flush a probe; stop at the first failure |
| SocketShell.Prime | src/socket_shell.rs:239-246 | priming writes `cd <home>` and then the probe; the probe is skipped only when the `cd` write fails; flush failures are ignored |
| SocketShell.InputLoop | src/socket_shell.rs:248-268 | stdin receives exactly what the input specification writes |
| SocketShell.StdinPump | src/socket_shell.rs:236-268 | the stdin task writes the priming and then the inputs; the home directory defaults to `/` |
| SocketShell.InputRunStopped | src/socket_shell.rs:250-265 | after a failed write or flush, later inputs change nothing |
| SocketShell.WriteAllSucceeds | src/socket_shell.rs:250-255 | with no failures, every item is written, at two calls per item |
| SocketShell.WriteAllPrefix | src/socket_shell.rs:250-266 | what an input writes is a prefix of its writes, and all of them when it carries on |
| SocketShell.InputRunAllSucceed | src/socket_shell.rs:248-268 | with no failures, stdin gets every input, each followed by a probe when it holds a newline |
| SocketShell.StdinWritesWhenAllSucceed | src/socket_shell.rs:236-268 | with no failures, stdin gets `cd`, the probe, then every input and its probes |
| SocketShell.InputRunPrefix | src/socket_shell.rs:248-268 | failures only cut the writes short: stdin always gets a prefix of the full sequence |
| SocketShell.SessionRegistry.constructor | src/socket_shell.rs:30 | a new registry is empty |
| SocketShell.SessionRegistry.Insert | src/socket_shell.rs:46-49 | the id maps to the session's sender and nothing else changes |
| SocketShell.SessionRegistry.Remove | src/socket_shell.rs:86-88 | the id is gone and nothing else changes |
| SocketShell.OutboundPump | src/socket_shell.rs:62-89 | the client receives the frames the specification sends; the entry is removed only when a send fails |
| SocketShell.OutboundRunFrames | src/socket_shell.rs:63-84 | frame j is item j classified; the loop carries on exactly when no send failed, and otherwise stops right after the first failure |
| SocketShell.OutboundRunStopped | src/socket_shell.rs:63-84 | after a failed send, later items change nothing |
| SocketShell.HandleSocket | src/socket_shell.rs:39-119 | the session inserts its entry; afterwards the registry still holds it unless a send failed |
| SocketShell.RegistryEntryOutlivesQuietSession | src/socket_shell.rs:62-89 | when no send fails, the entry is still registered after the session |
| SocketShell.HandleSocketCorrected | src/socket_shell.rs:39-119 | the corrected session: the registry ends as it began, minus the session's id |
| Io.Endpoint.Send | src/socket_shell.rs:250-252 | a send succeeds exactly when its call number is not a failing one; only a success is logged |
| Io.Endpoint.Flush | src/socket_shell.rs:253-255 | a flush may fail and never changes what was written |
| Dmesg.ParseTimestamp | src/dmesg.rs:57-69 | a time is found only on a line that starts with `[` and has a `]` |
| Dmesg.UnbracketedLineHasNoTime | src/dmesg.rs:59-68 | a line without a leading `[` and a `]` has no time |
| Dmesg.BracketedTimestamp | src/dmesg.rs:63-65 | the text between `[` and the first `]`, trimmed, is what is parsed |
| Dmesg.DmesgLineTimestamp | src/dmesg.rs:57-69 | a line `[  secs.micros]message` has the time secs + micros/10^6 |
| Dmesg.StampValue | src/dmesg.rs:65 | a `secs.micros` stamp parses to its value |
| Dmesg.DecimalWithPoint | src/dmesg.rs:65 | a decimal with a point parses to its exact value |
| Dmesg.KeptMembers | src/dmesg.rs:26-34 | a line is kept exactly when it has a time later than the cursor |
| Dmesg.Kept | src/dmesg.rs:26-35 | the lines kept when a cursor is given, in order; stated in `Dmesg.KeptMembers` and `Dmesg.KeptAppend` |
| Dmesg.KeptAppend | src/dmesg.rs:26-34 | kept lines stay in their original order |
| Dmesg.CursorNotBelowSince | src/dmesg.rs:23-35 | given a cursor, the new cursor exists and is not below it |
| Dmesg.Cursor | src/dmesg.rs:23-43 | the cursor after reading the lines; stated in `Dmesg.CursorNotBelowSince`, `Dmesg.CursorIsLastKept` and `Dmesg.CursorWithoutSinceIsLast` |
| Dmesg.CursorIsLastKept | src/dmesg.rs:30-32 | given a cursor, the new cursor is the time of the last kept line, or the old cursor when nothing was kept |
| Dmesg.CursorWithoutSinceNone | src/dmesg.rs:38-43 | with no cursor, none comes back exactly when no line has a time |
| Dmesg.CursorWithoutSinceIsLast | src/dmesg.rs:38-43 | with no cursor, the new cursor is the time of the last line that has one |
| Dmesg.FilterNewer | src/dmesg.rs:25-36 | the loop's text is the kept lines, each ended by a newline; its cursor is the cursor specification |
| Dmesg.LastTime | src/dmesg.rs:38-43 | the loop's cursor is the time of the last stamped line |
| Dmesg.Collected | src/dmesg.rs:8-54 | off Linux the answer is ("", None); on Linux it is an error exactly when the command cannot run or exits unsuccessfully, and the error carries stderr after `dmesg command failed: `; a cursor comes back no lower; without a cursor the whole output is returned |
| Dmesg.CollectDmesg | src/dmesg.rs:8-54 | the collector returns what the specification says |
| Util.ServerId | src/util.rs:5-14 | the identifier's length is the host name's, plus one, plus at most eight |
| Util.ServerIdParts | src/util.rs:7-13 | the identifier is the host name, `-`, then the machine id's first eight characters, or all of it when it is shorter |
| Util.MissingHostname | src/util.rs:7 | an unreadable host name gives an identifier starting `unknown-` |
| Util.MissingMachineId | src/util.rs:10-13 | an unreadable machine id gives `<host>-unknown` |
| Util.SameNameAndPrefixCollide | src/util.rs:13 | two machines with the same host name whose ids share their first eight characters get the same identifier |
| Process.AsU32 | src/process.rs:95-97 | `as u32` keeps the value modulo 2^32 |
| Process.AsI32 | src/process.rs:98 | `as i32` keeps the value modulo 2^32, in the signed range |
| Process.CastsKeepSmallValues | src/process.rs:95-98 | values that fit are unchanged by either cast |
| Process.NegativePriorityWraps | src/process.rs:97 | a negative priority becomes 2^32 plus it |
| Process.FormatMemory | src/process.rs:133-141 | the text is a count followed by one of the letters K, M, G, and the count is the size in kilobytes divided by that unit's size, rounded down |
| Process.FormatMemoryUnit | src/process.rs:134-140 | the unit is G exactly from 1 GiB, M exactly from 1 MiB below that, K exactly below 1 MiB |
| Process.FormatMemoryReadsBack | src/process.rs:133-141 | the count is below 1024 in K and M and at least 1 in M and G; read back, it is the size rounded down to its unit |
| Process.Uptime | src/process.rs:63-70 | no boot time gives 0; otherwise the uptime plus the boot time is now, modulo 2^64 |
| Process.RuntimeSecs | src/process.rs:72-77 | the runtime never exceeds the uptime, the start plus the runtime reaches the uptime, and it is 0 exactly when the thread started no earlier than the uptime; when the uptime is larger, the start plus the runtime is exactly the uptime |
| Process.SplitRuntime | src/process.rs:79-81 | hours·3600 + minutes·60 + seconds is the runtime, with minutes and seconds below 60 |
| Process.FormatRuntime | src/process.rs:79-105 | the runtime as `h:mm:ss`; stated in `Process.RuntimeRoundTrip` |
| Process.RuntimeRoundTrip | src/process.rs:79-105 | the `h:mm:ss` text has two-digit minutes and seconds and reads back as the runtime |
| Process.ThreadCap | src/process.rs:51-128 | a process shows at most ten thread rows, and none on other systems |
| Process.ThreadRow | src/process.rs:62-107 | the row of one thread whose stat reads; stated in `Process.RowsCarryUser`, `Process.ThreadRuntimeReadsBack` and `Process.VirtualSizeScaledTwice` |
| Process.RowsCarryUser | src/process.rs:96 | every thread row carries its process's user name |
| Process.ThreadRuntimeReadsBack | src/process.rs:72-105 | a row's runtime reads back as the saturated runtime of its thread |
| Process.VirtualSizeScaledTwice | src/process.rs:84-100 | the same 2048 kB shows as `2K` of virtual memory and `2M` resident |
| Process.ThreadDetails | src/process.rs:51-129 | the loop returns the rows of the first ten tasks that open, keeping only tasks whose stat reads |
| Process.OpenedPrefix | src/process.rs:59 | once ten tasks have opened, later entries do not change the rows |
| Process.ThreadCount | src/process.rs:8-48 | an unreadable count, and every count on other systems, is 1; otherwise the reading cast to `u32` |
| Process.ReportedExactly | src/process.rs:219-282 | a process is reported exactly when its thread count is at least twenty, and then with this entry |
| Process.ReportedShape | src/process.rs:258-280 | a reported process has one trend point with at least twenty threads, at most ten thread rows, and the server id |
| Process.UnreadableCountNeverReported | src/process.rs:249-255 | a process whose thread count cannot be read is never reported |
| Process.ReportedAppend | src/process.rs:219-282 | reporting keeps the order of the process list |
| Process.CollectProcesses | src/process.rs:192-290 | the loop builds exactly the reported entries |
| Metrics.SaturatingSub | src/metrics.rs:61 | the result never exceeds the minuend; it is the difference when the subtrahend fits, and 0 otherwise |
| Metrics.Usage | src/metrics.rs:57-63 | the fold over the disks; stated in `Metrics.UsedAtMostTotal` and `Metrics.UsedIsTotalLessAvailable` |
| Metrics.UsedAtMostTotal | src/metrics.rs:58-63 | used disk space never exceeds the total |
| Metrics.UsedIsTotalLessAvailable | src/metrics.rs:58-63 | when no disk reports more free space than it has, used plus available is the total |
| Metrics.DiskPercent | src/metrics.rs:65-69 | the usage lies between 0 and 100; it is 0 exactly when there is no space or none is used, and 100 exactly when all is used |
| Metrics.DeviceSectors | src/metrics.rs:116-132 | counts come back only as `u64` values |
| Metrics.WholeDeviceCounted | src/metrics.rs:116-126 | a line of at least fourteen fields naming a whole device gives its sixth and tenth fields |
| Metrics.PartitionSkipped | src/metrics.rs:121-122 | a device whose name ends in a digit is skipped |
| Metrics.ShortLineSkipped | src/metrics.rs:118 | a line of fewer than fourteen fields is skipped |
| Metrics.UnparsableCountSkipped | src/metrics.rs:125-126 | a count that is not a `u64` skips the whole line |
| Metrics.IoSectors | src/metrics.rs:110-148 | an unreadable statistics file, or a system other than Linux, gives (0, 0) |
| Metrics.SectorTotals | src/metrics.rs:116-132 | the sums over the lines that give sectors; stated in `Metrics.SectorTotalsAppend`, `Metrics.SkippedLineAddsNothing` and the per-line lemmas |
| Metrics.SectorTotalsAppend | src/metrics.rs:115-133 | the sums are additive over the lines |
| Metrics.SkippedLineAddsNothing | src/metrics.rs:131-133 | a skipped line adds nothing wherever it stands |
| Text.SplitWhitespaceJoin | src/metrics.rs:118 | `split_whitespace` on space-joined words gives the words back |
| Text.ParseU64OfPrinted | src/metrics.rs:125-126 | every printed `u64` parses back to itself |
| Text.SplitJoin | src/socket_shell.rs:161 | splitting joined separator-free parts gives the parts back |
| Text.LinesAfterJoin | src/socket_shell.rs:160 | the lines of joined lines are those lines |
| Monitor.IntervalSecs | src/main.rs:86-89 | the interval is min·60 + sec modulo 2^64, absent values read as 0; it is refused exactly when that is 0, and otherwise that value is the interval |
| Monitor.NoOptionsRefused | src/main.rs:86-89 | with neither option given, the monitor stops with the interval error |
| Monitor.IntervalExamples | src/main.rs:86-89 | minutes alone, seconds alone, and both together give the interval in seconds |
| Monitor.WrappedIntervalRefused | src/main.rs:86-89 | a minute count of 2^62 wraps to 0 and is refused |
| Monitor.DmesgEvents | src/main.rs:105-115 | non-empty kernel-message text is printed as one report, empty text prints nothing, and a collector error prints one failure |
| Monitor.NextCursor | src/main.rs:110-112 | the cursor is replaced only by a cursor the collector returned |
| Monitor.HandleDmesg | src/main.rs:105-115 | the loop body's dmesg handling prints and updates as specified |
| Monitor.TurnKeepsCursor | src/main.rs:105-112 | one turn never loses the cursor and never moves it back |
| Monitor.CursorNeverMovesBack | src/main.rs:91-119 | once the loop has a cursor it keeps one, and it never decreases over later turns |
| Monitor.NoEmptyDmesgReport | src/main.rs:107-109 | no kernel-message report the loop prints is empty |
| Monitor.TurnsAreFramed | src/main.rs:94-118 | each turn writes five or six events, so the output of n turns has between 5n and 6n events; it starts with the loop start and ends with the pause |
| Monitor.RunPrefix | src/main.rs:94-118 | later turns only append: what the loop has written after some turns stays at the front of the output |
| Monitor.TurnIsFramed | src/main.rs:94-118 | turn k stands in the output right after the earlier turns' events: its start, metrics and processes, then exactly that turn's kernel-message events (nothing, a report or a failure), then its end and the pause for the interval |
| Monitor.OtherOsNoDmesg | src/main.rs:105-115 | off Linux the loop never gets a cursor and prints no kernel messages |
| Monitor.Run | src/main.rs:94-118 | the output and cursor after some turns of the loop; stated in `Monitor.CursorNeverMovesBack`, `Monitor.NoEmptyDmesgReport`, `Monitor.TurnsAreFramed`, `Monitor.TurnIsFramed` and `Monitor.OtherOsNoDmesg` |
| Monitor.MonitorLoop | src/main.rs:85-119 | a zero interval is refused before anything is collected; otherwise the loop's output and cursor are the run specification |
| Monitor.AllData | src/main.rs:146-155 | a missing or unparsable `data.json` gives `{}`; otherwise the parsed value |

## Behaviour worth knowing

- A stdout chunk whose marker line parses is replaced by the `system`
  envelope: text around the marker line in that chunk is not sent
  (`SocketShell.MarkerChunkEnvelope`).
- The client frame type requires a `timestamp` field: a frame without
  one does not decode and is dropped (`SocketShell.Dispatch`).
- `request_system_info` forwards the probe through the input channel. The
  probe ends in a newline, so the stdin task writes it and then a second
  probe (`SocketShell.RequestSystemInfoProbesTwice`).
- A working directory containing `:` shifts the parsed fields
  (`SocketShell.ColonInPathShiftsFields`).
- The virtual size is divided by 1024 before formatting, even though the
  status file already reports it in kilobytes, like the resident size. So
  the virtual column reads 1024 times too small
  (`Process.VirtualSizeScaledTwice`).
- A negative real-time priority cast `as u32` shows as a number near 2^32
  (`Process.NegativePriorityWraps`).

## Findings

| source | as written | input that shows it | evidently intended | confidence | as-written member | corrected member |
|---|---|---|---|---|---|---|
| src/socket_shell.rs:86-88 | The session's registry entry is removed only when the outbound loop ends. That loop ends only on a failed send to the client, because the registry's own clone of the sender keeps the channel open. | A client disconnects while the shell prints nothing more. No send is attempted, so none fails, and the entry stays registered for good. | The entry is removed when the session ends, that is, when any of its three tasks finishes. | medium; not executed | SocketShell.RegistryEntryOutlivesQuietSession | SocketShell.HandleSocketCorrected |

## Left out

- Concurrency: the tokio tasks, `select!` and the channels' scheduling are not modelled. Each task is modelled as a sequential loop over the events it sees, and each endpoint's failures are fixed up front.
- Spawning `/bin/bash` and `dmesg`, reading pipes and files, the clock, `HOME`, sysinfo, procfs, libc, the users database and machine-uid are not modelled. They are parameters of the model: read results, run results, readings and clocks.
- serde: JSON decoding of client frames is a given `Option<TerminalMessage>`. Encoding is a minimal object writer without string escaping, and the only property used is that its output is object-shaped. `Monitor.AllData` takes the JSON parser as a parameter.
- Floating point: CPU, memory and network figures, the sector-to-megabyte conversion and all `round()` calls are left out. Timestamps are parsed to exact reals. `Metrics.DiskPercent` is exact and does not round.
- Dmesg.ParseTimestamp: the `f64` parser is modelled for a sign, digits and an optional fraction. Exponents, `inf` and `NaN` are not modelled.
- Metrics.SectorTotals: the `u64` sums are unbounded, so overflow is not modelled. The same goes for the disk totals in `Metrics.Usage`.
- Process.Uptime and Monitor.IntervalSecs: `u64` arithmetic wraps as in a release build. A debug build panics instead.
- Io.Endpoint.Send: a failed write is modelled as writing nothing. `write_all` can fail after part of the buffer has reached the pipe, so at a failure the shell may get a truncated input or probe, which `SocketShell.InputRunPrefix` does not cover.
- Process.ThreadRow: every row of a report is computed against one clock reading. The source reads the system clock again for each task, which can differ by a second across the rows.
- Util.ServerId: slices by characters. The source slices by bytes and panics when byte 8 falls inside a multi-byte character.
- Process.CollectProcesses: takes the process list in the order given. The source iterates a hash map, so its order is unspecified. The progress bar and the JSON text are left out.
- Monitor.MonitorLoop: runs one turn per element of `turns`, while the source loops forever. The turns' metrics and process results are given as text, and the sleep is recorded as an event.
- `check_max_threads_process` is called from the main program but is not part of this model. CLI parsing, axum routing and the WebSocket upgrade are left out.
- The `println!` echoes of stdout, stderr and user input inside the shell bridge are left out.
