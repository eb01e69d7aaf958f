// The process report: memory and runtime formatting, the per-thread rows
// (at most ten per process) and the filter that keeps only processes with
// at least twenty threads.

module Process {
  import opened Wrappers
  import opened Text
  import Util

  // ---------------------------------------------------------------------
  // Integer casts
  // ---------------------------------------------------------------------

  const U32_LIMIT: nat := 0x1_0000_0000
  const I32_MIN: int := -0x8000_0000

  /** `x as u32` on a wider integer: the low 32 bits. */
  function AsU32(x: int): (r: nat)
    ensures r < U32_LIMIT && (x - r) % U32_LIMIT == 0
  {
    x % U32_LIMIT
  }

  /** `x as i32` on a wider integer: the low 32 bits read as two's complement. */
  function AsI32(x: int): (r: int)
    ensures I32_MIN <= r < I32_MIN + U32_LIMIT && (x - r) % U32_LIMIT == 0
  {
    var low := x % U32_LIMIT;
    if low >= U32_LIMIT / 2 then low - U32_LIMIT else low
  }

  /** A value that fits is left alone by both casts. */
  lemma CastsKeepSmallValues(x: int)
    ensures 0 <= x < U32_LIMIT ==> AsU32(x) == x
    ensures I32_MIN <= x < -I32_MIN ==> AsI32(x) == x
  {
  }

  /** A negative priority, as real-time threads report, wraps to a large unsigned one. */
  lemma NegativePriorityWraps(p: int)
    requires p < 0 && p + U32_LIMIT > 0
    ensures AsU32(p) == U32_LIMIT + p
  {
  }

  // ---------------------------------------------------------------------
  // format_memory
  // ---------------------------------------------------------------------

  const KB_PER_MB: nat := 1024
  const KB_PER_GB: nat := 1024 * 1024

  function UnitSize(unit: char): nat {
    if unit == 'G' then KB_PER_GB else if unit == 'M' then KB_PER_MB else 1
  }

  /**
   * `format_memory`: whole gigabytes, else whole megabytes, else kilobytes;
   * the text is the count of whole units followed by the unit's letter.
   */
  function FormatMemory(kb: nat): (s: string)
    ensures |s| >= 2 && s[|s| - 1] in "KMG"
    ensures s[..|s| - 1] == NatToString(kb / UnitSize(s[|s| - 1]))
  {
    var unit := if kb >= KB_PER_GB then 'G' else if kb >= KB_PER_MB then 'M' else 'K';
    var s := NatToString(kb / UnitSize(unit)) + [unit];
    assert s[..|s| - 1] == NatToString(kb / UnitSize(unit));
    s
  }

  /** Reads a memory text back as kilobytes: its count times its unit. */
  function ReadMemory(s: string): (kb: Option<nat>)
    ensures kb.Some? ==> |s| >= 2 && s[|s| - 1] in "KMG"
  {
    if |s| < 2 || s[|s| - 1] !in "KMG" then None
    else match ParseDigits(s[..|s| - 1])
      case Some(n) => Some(n * UnitSize(s[|s| - 1]))
      case None => None
  }

  lemma CountAndUnit(n: nat, unit: char)
    ensures var s := NatToString(n) + [unit];
            |s| >= 2 && s[|s| - 1] == unit && s[..|s| - 1] == NatToString(n)
  {
    var s := NatToString(n) + [unit];
    assert s[..|s| - 1] == NatToString(n);
  }

  /** A count followed by its unit reads back as the count times the unit. */
  lemma PrintedCount(n: nat, unit: char)
    requires unit in "KMG"
    ensures var s := NatToString(n) + [unit];
            && |s| >= 2 && s[|s| - 1] == unit
            && ParseDigits(s[..|s| - 1]) == Some(n)
            && ReadMemory(s) == Some(n * UnitSize(unit))
  {
    CountAndUnit(n, unit);
    NatToStringValue(n);
  }

  /** The unit follows the thresholds, in both directions. */
  lemma FormatMemoryUnit(kb: nat)
    ensures var s := FormatMemory(kb);
            && (s[|s| - 1] == 'G' <==> kb >= KB_PER_GB)
            && (s[|s| - 1] == 'M' <==> KB_PER_MB <= kb < KB_PER_GB)
            && (s[|s| - 1] == 'K' <==> kb < KB_PER_MB)
  {
    if kb >= KB_PER_GB {
      CountAndUnit(kb / KB_PER_GB, 'G');
    } else if kb >= KB_PER_MB {
      CountAndUnit(kb / KB_PER_MB, 'M');
    } else {
      CountAndUnit(kb, 'K');
    }
  }

  /**
   * The printed count: at most 1023 in the K and M forms, at least 1 in the
   * M and G forms; and it reads back as the size rounded down to its unit.
   */
  lemma FormatMemoryReadsBack(kb: nat)
    ensures var s := FormatMemory(kb);
            var unit := s[|s| - 1];
            var count := ParseDigits(s[..|s| - 1]);
            && count.Some?
            && (unit != 'G' ==> count.value <= 1023)
            && (unit != 'K' ==> count.value >= 1)
            && ReadMemory(s) == Some(count.value * UnitSize(unit))
            && count.value * UnitSize(unit) <= kb < (count.value + 1) * UnitSize(unit)
  {
    if kb >= KB_PER_GB {
      UnitReadsBack(kb, 'G');
    } else if kb >= KB_PER_MB {
      UnitReadsBack(kb, 'M');
    } else {
      UnitReadsBack(kb, 'K');
    }
  }

  lemma DivBounds(kb: nat, d: nat)
    requires d > 0
    ensures (kb / d) * d <= kb < (kb / d + 1) * d
    ensures kb < 1024 * d ==> kb / d <= 1023
    ensures kb >= d ==> kb / d >= 1
  {
  }

  lemma UnitReadsBack(kb: nat, unit: char)
    requires unit in "KMG" && FormatMemory(kb) == NatToString(kb / UnitSize(unit)) + [unit]
    requires unit != 'G' ==> kb < 1024 * UnitSize(unit)
    requires unit != 'K' ==> kb >= UnitSize(unit)
    ensures var s := FormatMemory(kb);
            var unit := s[|s| - 1];
            var count := ParseDigits(s[..|s| - 1]);
            && count.Some?
            && (unit != 'G' ==> count.value <= 1023)
            && (unit != 'K' ==> count.value >= 1)
            && ReadMemory(s) == Some(count.value * UnitSize(unit))
            && count.value * UnitSize(unit) <= kb < (count.value + 1) * UnitSize(unit)
  {
    DivBounds(kb, UnitSize(unit));
    PrintedCount(kb / UnitSize(unit), unit);
  }

  // ---------------------------------------------------------------------
  // Runtime arithmetic
  // ---------------------------------------------------------------------

  /** `now - boot_time` on `u64`, wrapping; no boot time reads as an uptime of 0. */
  function Uptime(now: nat, bootTime: Option<nat>): (u: nat)
    requires now < U64_LIMIT && (bootTime.Some? ==> bootTime.value < U64_LIMIT)
    ensures u < U64_LIMIT
    ensures bootTime.None? ==> u == 0
    ensures bootTime.Some? ==> (u + bootTime.value) % U64_LIMIT == now
  {
    match bootTime
    case None => 0
    case Some(b) => if now >= b then now - b else now + U64_LIMIT - b
  }

  /**
   * The runtime: uptime less the start time when the uptime is larger, else
   * 0 — the least value that, added to the start, reaches the uptime.
   */
  function RuntimeSecs(uptime: nat, startSecs: nat): (r: nat)
    ensures r <= uptime && startSecs + r >= uptime
    ensures r == 0 <==> uptime <= startSecs
    ensures uptime > startSecs ==> startSecs + r == uptime
  {
    if uptime > startSecs then uptime - startSecs else 0
  }

  datatype Clock = Clock(hours: nat, minutes: nat, seconds: nat)

  /** Hours, minutes and seconds of a duration. */
  function SplitRuntime(r: nat): (c: Clock)
    ensures c.hours * 3600 + c.minutes * 60 + c.seconds == r
    ensures c.minutes < 60 && c.seconds < 60
  {
    var c := Clock(r / 3600, (r % 3600) / 60, r % 60);
    assert r % 60 == (r % 3600) % 60;
    c
  }

  /** `{}:{:02}:{:02}` on the clock of a duration. */
  function FormatRuntime(r: nat): string {
    var c := SplitRuntime(r);
    NatToString(c.hours) + ":" + ZeroPad(c.minutes, 2) + ":" + ZeroPad(c.seconds, 2)
  }

  /** Reads `h:mm:ss` back as seconds. */
  function ParseRuntime(s: string): (r: Option<nat>)
    ensures r.Some? ==> |Split(s, ':')| == 3
  {
    var parts := Split(s, ':');
    if |parts| != 3 then None
    else match (ParseDigits(parts[0]), ParseDigits(parts[1]), ParseDigits(parts[2]))
      case (Some(h), Some(m), Some(sec)) => Some(h * 3600 + m * 60 + sec)
      case _ => None
  }

  /** Three colon-free fields joined by colons split back into those fields. */
  lemma ThreeFields(h: string, m: string, s: string)
    requires ':' !in h && ':' !in m && ':' !in s
    ensures Split(h + ":" + m + ":" + s, ':') == [h, m, s]
  {
    var tail := m + [':'] + s;
    SplitWithoutSeparator(s, ':');
    SplitAfterField(m, ':', s);
    assert Split(tail, ':') == [m, s];
    SplitAfterField(h, ':', tail);
    assert h + ":" + m + ":" + s == h + [':'] + tail;
  }

  /** The runtime text has two-digit minutes and seconds and reads back as the runtime. */
  lemma RuntimeRoundTrip(r: nat)
    ensures var parts := Split(FormatRuntime(r), ':');
            |parts| == 3 && |parts[1]| == 2 && |parts[2]| == 2
    ensures ParseRuntime(FormatRuntime(r)) == Some(r)
  {
    var c := SplitRuntime(r);
    var h, m, s := NatToString(c.hours), ZeroPad(c.minutes, 2), ZeroPad(c.seconds, 2);
    assert Pow10(2) == 100;
    ZeroPadValue(c.minutes, 2);
    ZeroPadValue(c.seconds, 2);
    NatToStringValue(c.hours);
    DigitsExclude(h, ':');
    DigitsExclude(m, ':');
    DigitsExclude(s, ':');
    ThreeFields(h, m, s);
    assert ParseDigits(h) == Some(c.hours);
    assert ParseDigits(m) == Some(c.minutes);
    assert ParseDigits(s) == Some(c.seconds);
  }

  // ---------------------------------------------------------------------
  // get_thread_details
  // ---------------------------------------------------------------------

  /** What a task's `stat` file gives; `state` is the state as the report prints it. */
  datatype TaskStat = TaskStat(pid: int, priority: int, nice: int, startTicks: nat, state: string, comm: string)

  /** What a task's `status` file gives, in kilobytes. */
  datatype TaskStatus = TaskStatus(vmsize: Option<nat>, vmrss: Option<nat>)

  /** A task of a process: its `stat` and `status`, either of which may fail to read. */
  datatype Task = Task(stat: Option<TaskStat>, status: Option<TaskStatus>)

  datatype ThreadData = ThreadData(
    threadId: nat, userName: string, priority: nat, niceValue: int,
    virtualMemory: string, residentMemory: string, sharedMemory: string,
    status: string, cpuUsage: string, memoryUsage: string, runtime: string, command: string)

  datatype Platform = Linux | MacOs | OtherOs

  /** The most threads reported per process. */
  const THREAD_CAP: nat := 10

  /** Fewer threads than this and a process is not reported. */
  const MIN_THREADS: nat := 20

  /**
   * The clock a report is taken against: seconds since the epoch, the boot
   * time if readable, and the clock ticks per second. One reading serves
   * every row, where the program reads the clock again for each task.
   */
  datatype Clocks = Clocks(now: nat, bootTime: Option<nat>, ticksPerSec: nat)

  predicate ValidClocks(k: Clocks) {
    k.now < U64_LIMIT && (k.bootTime.Some? ==> k.bootTime.value < U64_LIMIT) && k.ticksPerSec > 0
  }

  /** The row for one task whose `stat` was read. */
  function ThreadRow(stat: TaskStat, status: Option<TaskStatus>, user: string, clocks: Clocks): ThreadData
    requires ValidClocks(clocks)
  {
    var uptime := Uptime(clocks.now, clocks.bootTime);
    var runtime := RuntimeSecs(uptime, stat.startTicks / clocks.ticksPerSec);
    var vsize := match status case Some(st) => st.vmsize.GetOr(0) / 1024 case None => 0;
    var rss := match status case Some(st) => st.vmrss.GetOr(0) case None => 0;
    ThreadData(AsU32(stat.pid), user, AsU32(stat.priority), AsI32(stat.nice),
               FormatMemory(vsize), FormatMemory(rss), FormatMemory(0),
               stat.state, "0.0", "0.0", FormatRuntime(runtime), stat.comm)
  }

  /** The rows for a run of tasks: those whose `stat` was read, in order. */
  function Rows(tasks: seq<Task>, user: string, clocks: Clocks): seq<ThreadData>
    requires ValidClocks(clocks)
    decreases |tasks|
  {
    if |tasks| == 0 then []
    else
      var t := tasks[|tasks| - 1];
      Rows(tasks[..|tasks| - 1], user, clocks)
      + (if t.stat.Some? then [ThreadRow(t.stat.value, t.status, user, clocks)] else [])
  }

  /** The tasks that could be opened (`flatten`), in order. */
  function Opened(entries: seq<Option<Task>>): seq<Task>
    decreases |entries|
  {
    if |entries| == 0 then []
    else
      var e := entries[|entries| - 1];
      Opened(entries[..|entries| - 1]) + (if e.Some? then [e.value] else [])
  }

  /** `take(10)` */
  function Taken(tasks: seq<Task>): (t: seq<Task>)
    ensures |t| <= THREAD_CAP
  {
    if |tasks| <= THREAD_CAP then tasks else tasks[..THREAD_CAP]
  }

  /**
   * The thread rows of a process; `entries` is `None` when the process or
   * its task list cannot be read. Only Linux reads threads at all.
   */
  function ThreadsOf(platform: Platform, entries: Option<seq<Option<Task>>>, user: string, clocks: Clocks): seq<ThreadData>
    requires ValidClocks(clocks)
  {
    if platform != Linux || entries.None? then []
    else Rows(Taken(Opened(entries.value)), user, clocks)
  }

  lemma {:induction false} RowsAtMostTasks(tasks: seq<Task>, user: string, clocks: Clocks)
    requires ValidClocks(clocks)
    ensures |Rows(tasks, user, clocks)| <= |tasks|
    decreases |tasks|
  {
    if |tasks| > 0 {
      RowsAtMostTasks(tasks[..|tasks| - 1], user, clocks);
    }
  }

  /** At most ten threads are reported per process, and none off Linux. */
  lemma ThreadCap(platform: Platform, entries: Option<seq<Option<Task>>>, user: string, clocks: Clocks)
    requires ValidClocks(clocks)
    ensures |ThreadsOf(platform, entries, user, clocks)| <= THREAD_CAP
    ensures platform != Linux ==> |ThreadsOf(platform, entries, user, clocks)| == 0
  {
    if platform == Linux && entries.Some? {
      RowsAtMostTasks(Taken(Opened(entries.value)), user, clocks);
    }
  }

  /** Every row carries the process's user name. */
  lemma {:induction false} RowsCarryUser(tasks: seq<Task>, user: string, clocks: Clocks)
    requires ValidClocks(clocks)
    ensures forall i :: 0 <= i < |Rows(tasks, user, clocks)| ==> Rows(tasks, user, clocks)[i].userName == user
    decreases |tasks|
  {
    if |tasks| > 0 {
      RowsCarryUser(tasks[..|tasks| - 1], user, clocks);
    }
  }

  /** A row's runtime text reads back as the saturated runtime of its task. */
  lemma ThreadRuntimeReadsBack(stat: TaskStat, status: Option<TaskStatus>, user: string, clocks: Clocks)
    requires ValidClocks(clocks)
    ensures ParseRuntime(ThreadRow(stat, status, user, clocks).runtime)
            == Some(RuntimeSecs(Uptime(clocks.now, clocks.bootTime), stat.startTicks / clocks.ticksPerSec))
  {
    RuntimeRoundTrip(RuntimeSecs(Uptime(clocks.now, clocks.bootTime), stat.startTicks / clocks.ticksPerSec));
  }

  /**
   * The virtual size is divided by 1024 before it is formatted, though it is
   * already in kilobytes like the resident size: the same 2048 kB reads as
   * `2K` in one column and `2M` in the other.
   */
  lemma VirtualSizeScaledTwice(stat: TaskStat, user: string, clocks: Clocks)
    requires ValidClocks(clocks)
    ensures var row := ThreadRow(stat, Some(TaskStatus(Some(2048), Some(2048))), user, clocks);
            row.virtualMemory == "2K" && row.residentMemory == "2M"
  {
    assert NatToString(2) == "2";
    assert 2048 / UnitSize('M') == 2 && 2 / UnitSize('K') == 2;
    assert FormatMemory(2) == "2K";
    assert FormatMemory(2048) == "2M";
  }

  /** `get_thread_details`: the loop over the first ten tasks that open. */
  method ThreadDetails(platform: Platform, entries: Option<seq<Option<Task>>>, user: string, clocks: Clocks)
    returns (threads: seq<ThreadData>)
    requires ValidClocks(clocks)
    ensures threads == ThreadsOf(platform, entries, user, clocks)
  {
    threads := [];
    if platform != Linux || entries.None? {
      return;
    }
    var es := entries.value;
    var i := 0;
    var taken := 0;
    while i < |es| && taken < THREAD_CAP
      invariant 0 <= i <= |es|
      invariant taken == |Opened(es[..i])| <= THREAD_CAP
      invariant threads == Rows(Opened(es[..i]), user, clocks)
      decreases |es| - i
    {
      OpenedStep(es, i);
      match es[i] {
        case Some(task) =>
          assert Opened(es[..i + 1]) == Opened(es[..i]) + [task];
          RowsStep(Opened(es[..i]), task, user, clocks);
          if task.stat.Some? {
            threads := threads + [ThreadRow(task.stat.value, task.status, user, clocks)];
          }
          taken := taken + 1;
        case None =>
          assert Opened(es[..i + 1]) == Opened(es[..i]);
      }
      i := i + 1;
    }
    OpenedPrefix(es, i);
    if taken < THREAD_CAP {
      assert es[..i] == es;
    }
  }

  lemma OpenedStep(es: seq<Option<Task>>, i: nat)
    requires i < |es|
    ensures Opened(es[..i + 1]) == Opened(es[..i]) + (if es[i].Some? then [es[i].value] else [])
  {
    assert es[..i + 1][..i] == es[..i];
  }

  lemma RowsStep(tasks: seq<Task>, t: Task, user: string, clocks: Clocks)
    requires ValidClocks(clocks)
    ensures Rows(tasks + [t], user, clocks)
            == Rows(tasks, user, clocks) + (if t.stat.Some? then [ThreadRow(t.stat.value, t.status, user, clocks)] else [])
  {
    assert (tasks + [t])[..|tasks|] == tasks;
  }

  /** The opened tasks of a prefix are a prefix of the opened tasks. */
  lemma {:induction false} OpenedPrefix(es: seq<Option<Task>>, i: nat)
    requires i <= |es|
    ensures |Opened(es[..i])| <= |Opened(es)|
    ensures Opened(es)[..|Opened(es[..i])|] == Opened(es[..i])
    ensures |Opened(es[..i])| >= THREAD_CAP ==> Taken(Opened(es)) == Taken(Opened(es[..i]))
    decreases |es| - i
  {
    if i == |es| {
      assert es[..i] == es;
    } else {
      OpenedPrefix(es, i + 1);
      OpenedStep(es, i);
    }
  }

  // ---------------------------------------------------------------------
  // get_thread_count and collect_processes
  // ---------------------------------------------------------------------

  /**
   * `get_thread_count`: the count read from the system, cast to `u32`, or 1
   * when it cannot be read (and always on other systems).
   */
  function ThreadCount(platform: Platform, reading: Option<int>): (n: nat)
    ensures reading.None? || platform == OtherOs ==> n == 1
    ensures platform != OtherOs && reading.Some? ==> n == AsU32(reading.value)
  {
    if platform == OtherOs then 1
    else match reading
      case Some(k) => AsU32(k)
      case None => 1
  }

  /** One process as the system lists it. */
  datatype ProcInfo = ProcInfo(
    pid: nat, name: string, user: Option<string>, status: string,
    threadReading: Option<int>, tasks: Option<seq<Option<Task>>>)

  /** The trend point of a process (the floating-point usage figures are not modelled). */
  datatype TrendData = TrendData(timestamp: nat, threadCount: nat)

  datatype ProcessData = ProcessData(
    serverId: string, pid: nat, name: string, userName: string, status: string,
    timestamp: nat, trend: seq<TrendData>, threads: seq<ThreadData>)

  /** Everything a report is taken against besides the process list. */
  datatype Snapshot = Snapshot(platform: Platform, serverId: string, timestamp: nat, clocks: Clocks)

  /** The entry for a process that passes the filter. */
  function Entry(p: ProcInfo, snap: Snapshot): ProcessData
    requires ValidClocks(snap.clocks)
  {
    var user := p.user.GetOr(Util.UNKNOWN);
    var count := ThreadCount(snap.platform, p.threadReading);
    ProcessData(snap.serverId, p.pid, p.name, user, p.status, snap.timestamp,
                [TrendData(snap.timestamp, count)], ThreadsOf(snap.platform, p.tasks, user, snap.clocks))
  }

  predicate Reportable(p: ProcInfo, platform: Platform) {
    ThreadCount(platform, p.threadReading) >= MIN_THREADS
  }

  /** The entries of the processes that pass the filter, in order. */
  function Reported(procs: seq<ProcInfo>, snap: Snapshot): seq<ProcessData>
    requires ValidClocks(snap.clocks)
    decreases |procs|
  {
    if |procs| == 0 then []
    else
      var p := procs[|procs| - 1];
      Reported(procs[..|procs| - 1], snap) + (if Reportable(p, snap.platform) then [Entry(p, snap)] else [])
  }

  /** Exactly the processes with at least twenty threads are reported. */
  lemma {:induction false} ReportedExactly(procs: seq<ProcInfo>, snap: Snapshot, d: ProcessData)
    requires ValidClocks(snap.clocks)
    ensures d in Reported(procs, snap)
            <==> exists p :: p in procs && Reportable(p, snap.platform) && d == Entry(p, snap)
    decreases |procs|
  {
    if |procs| > 0 {
      var init := procs[..|procs| - 1];
      ReportedExactly(init, snap, d);
      assert procs == init + [procs[|procs| - 1]];
    }
  }

  /** Every reported process shows at least twenty threads and at most ten thread rows. */
  lemma ReportedShape(procs: seq<ProcInfo>, snap: Snapshot, d: ProcessData)
    requires ValidClocks(snap.clocks)
    requires d in Reported(procs, snap)
    ensures |d.trend| == 1 && d.trend[0].threadCount >= MIN_THREADS
    ensures |d.threads| <= THREAD_CAP
    ensures d.serverId == snap.serverId
  {
    ReportedExactly(procs, snap, d);
    var p :| p in procs && Reportable(p, snap.platform) && d == Entry(p, snap);
    ThreadCap(snap.platform, p.tasks, p.user.GetOr(Util.UNKNOWN), snap.clocks);
  }

  /** A process whose thread count cannot be read counts 1 and is never reported. */
  lemma UnreadableCountNeverReported(procs: seq<ProcInfo>, snap: Snapshot, p: ProcInfo)
    requires ValidClocks(snap.clocks)
    requires p.threadReading.None? || snap.platform == OtherOs
    ensures Entry(p, snap) !in Reported(procs, snap)
  {
    ReportedExactly(procs, snap, Entry(p, snap));
  }

  /** The report keeps the order of the process list: reporting a concatenation concatenates. */
  lemma {:induction false} ReportedAppend(a: seq<ProcInfo>, b: seq<ProcInfo>, snap: Snapshot)
    requires ValidClocks(snap.clocks)
    ensures Reported(a + b, snap) == Reported(a, snap) + Reported(b, snap)
    decreases |b|
  {
    if |b| == 0 {
      assert a + b == a;
    } else {
      ReportedAppend(a, b[..|b| - 1], snap);
      assert (a + b)[..|a + b| - 1] == a + b[..|b| - 1];
    }
  }

  lemma ReportedStep(procs: seq<ProcInfo>, i: nat, snap: Snapshot)
    requires ValidClocks(snap.clocks)
    requires i < |procs|
    ensures Reported(procs[..i + 1], snap)
            == Reported(procs[..i], snap) + (if Reportable(procs[i], snap.platform) then [Entry(procs[i], snap)] else [])
  {
    assert procs[..i + 1][..i] == procs[..i];
  }

  /**
   * `collect_processes`: one entry per process with at least twenty
   * threads, in the order the system lists them, before JSON encoding.
   */
  method CollectProcesses(procs: seq<ProcInfo>, snap: Snapshot) returns (processes: seq<ProcessData>)
    requires ValidClocks(snap.clocks)
    ensures processes == Reported(procs, snap)
  {
    processes := [];
    var i := 0;
    while i < |procs|
      invariant 0 <= i <= |procs|
      invariant processes == Reported(procs[..i], snap)
    {
      var p := procs[i];
      var user := p.user.GetOr(Util.UNKNOWN);
      var count := ThreadCount(snap.platform, p.threadReading);
      ReportedStep(procs, i, snap);
      if count < MIN_THREADS {
        i := i + 1;
        continue;
      }
      var threads := ThreadDetails(snap.platform, p.tasks, user, snap.clocks);
      processes := processes + [ProcessData(snap.serverId, p.pid, p.name, user, p.status, snap.timestamp,
                                            [TrendData(snap.timestamp, count)], threads)];
      i := i + 1;
    }
    assert procs[..i] == procs;
  }
}
