// The `monitor` subcommand and the data endpoint: the interval check, the
// loop that reports metrics, processes and new kernel messages on every
// turn, and the fallback to an empty object when the data file is unusable.

module Monitor {
  import opened Wrappers
  import Text
  import Dmesg

  // ---------------------------------------------------------------------
  // The interval
  // ---------------------------------------------------------------------

  const NO_INTERVAL: string := "Please specify an interval using --min or --sec"

  /**
   * `min * 60 + sec` on `u64` with absent values read as 0, wrapping as a
   * release build does; an interval of 0 is refused before anything is
   * collected.
   */
  function IntervalSecs(min: Option<nat>, sec: Option<nat>): (r: Result<nat, string>)
    requires min.Some? ==> min.value < Text.U64_LIMIT
    requires sec.Some? ==> sec.value < Text.U64_LIMIT
    ensures r.Success? ==> 0 < r.value < Text.U64_LIMIT
    ensures r.Failure? ==> r.error == NO_INTERVAL
    ensures var wrapped := (min.GetOr(0) * 60 + sec.GetOr(0)) % Text.U64_LIMIT;
            (r.Success? <==> wrapped != 0) && (r.Success? ==> r.value == wrapped)
    ensures var exact := min.GetOr(0) * 60 + sec.GetOr(0);
            exact < Text.U64_LIMIT ==> (r.Success? <==> exact > 0) && (r.Success? ==> r.value == exact)
  {
    var secs := (min.GetOr(0) * 60 + sec.GetOr(0)) % Text.U64_LIMIT;
    if secs == 0 then Failure(NO_INTERVAL) else Success(secs)
  }

  /** Neither option given is refused. */
  lemma NoOptionsRefused()
    ensures IntervalSecs(None, None) == Failure(NO_INTERVAL)
  {
  }

  /** Minutes alone, seconds alone, or both: the interval in seconds. */
  lemma IntervalExamples()
    ensures IntervalSecs(Some(2), None) == Success(120)
    ensures IntervalSecs(None, Some(30)) == Success(30)
    ensures IntervalSecs(Some(1), Some(30)) == Success(90)
  {
  }

  /** A minute count whose product wraps to a multiple of 2^64 is refused as if no interval were given. */
  lemma WrappedIntervalRefused()
    ensures IntervalSecs(Some(0x4000_0000_0000_0000), None) == Failure(NO_INTERVAL)
  {
    assert 0x4000_0000_0000_0000 * 60 == 15 * Text.U64_LIMIT;
  }

  // ---------------------------------------------------------------------
  // The loop
  // ---------------------------------------------------------------------

  /** What the environment gave on one turn of the loop. */
  datatype Turn = Turn(metrics: Result<string, string>, processes: Result<string, string>, dmesg: Dmesg.DmesgRun)

  /** What the loop writes, in order: standard output and standard error lines, and the pause. */
  datatype Event =
    | LoopStart
    | MetricsReport(json: string)
    | MetricsFailure(message: string)
    | ProcessReport(json: string)
    | ProcessFailure(message: string)
    | DmesgReport(text: string)
    | DmesgFailure(error: Dmesg.DmesgError)
    | LoopEnd
    | Sleep(secs: nat)

  type DmesgOutcome = Result<(string, Option<real>), Dmesg.DmesgError>

  function MetricsEvent(r: Result<string, string>): Event {
    match r
    case Success(json) => MetricsReport(json)
    case Failure(e) => MetricsFailure(e)
  }

  function ProcessEvent(r: Result<string, string>): Event {
    match r
    case Success(json) => ProcessReport(json)
    case Failure(e) => ProcessFailure(e)
  }

  /** Kernel messages are printed only when there are any; a failure goes to standard error. */
  function DmesgEvents(outcome: DmesgOutcome): (es: seq<Event>)
    ensures |es| <= 1
    ensures forall e :: e in es && e.DmesgReport? ==> |e.text| > 0
    ensures outcome.Success? && |outcome.value.0| > 0 ==> es == [DmesgReport(outcome.value.0)]
    ensures outcome.Success? && |outcome.value.0| == 0 ==> es == []
    ensures outcome.Failure? ==> es == [DmesgFailure(outcome.error)]
  {
    match outcome
    case Success((text, _)) => if |text| == 0 then [] else [DmesgReport(text)]
    case Failure(e) => [DmesgFailure(e)]
  }

  /** The cursor after a turn: replaced only when the collector gave one. */
  function NextCursor(cursor: Option<real>, outcome: DmesgOutcome): (next: Option<real>)
    ensures outcome.Failure? || outcome.value.1.None? ==> next == cursor
    ensures outcome.Success? && outcome.value.1.Some? ==> next == outcome.value.1
  {
    if outcome.Success? && outcome.value.1.Some? then outcome.value.1 else cursor
  }

  function TurnEvents(t: Turn, outcome: DmesgOutcome, interval: nat): seq<Event> {
    [LoopStart, MetricsEvent(t.metrics), ProcessEvent(t.processes)] + DmesgEvents(outcome) + [LoopEnd, Sleep(interval)]
  }

  /** The state after some turns: everything written so far and the cursor. */
  datatype State = State(events: seq<Event>, cursor: Option<real>)

  /** The first turns of the loop, starting with no cursor. */
  function Run(platform: Dmesg.Platform, interval: nat, turns: seq<Turn>): State
    decreases |turns|
  {
    if |turns| == 0 then State([], None)
    else
      var before := Run(platform, interval, turns[..|turns| - 1]);
      var t := turns[|turns| - 1];
      var outcome := Dmesg.Collected(platform, before.cursor, t.dmesg);
      State(before.events + TurnEvents(t, outcome, interval), NextCursor(before.cursor, outcome))
  }

  /** One turn of the loop never loses the cursor and never moves it back. */
  lemma TurnKeepsCursor(platform: Dmesg.Platform, cursor: Option<real>, run: Dmesg.DmesgRun)
    ensures var next := NextCursor(cursor, Dmesg.Collected(platform, cursor, run));
            cursor.Some? ==> next.Some? && next.value >= cursor.value
  {
  }

  /**
   * Once the loop has a cursor it keeps one, and the cursor never moves
   * back: after more turns it is at least what it was after fewer.
   */
  lemma {:induction false} CursorNeverMovesBack(platform: Dmesg.Platform, interval: nat, turns: seq<Turn>, i: nat)
    requires i <= |turns|
    ensures var early, late := Run(platform, interval, turns[..i]).cursor, Run(platform, interval, turns).cursor;
            early.Some? ==> late.Some? && late.value >= early.value
    decreases |turns| - i
  {
    if i < |turns| {
      var init := turns[..|turns| - 1];
      assert turns[..i] == init[..i];
      CursorNeverMovesBack(platform, interval, init, i);
      TurnKeepsCursor(platform, Run(platform, interval, init).cursor, turns[|turns| - 1].dmesg);
    } else {
      assert turns[..i] == turns;
    }
  }

  /** Every kernel-message report the loop prints has some text in it. */
  lemma {:induction false} NoEmptyDmesgReport(platform: Dmesg.Platform, interval: nat, turns: seq<Turn>)
    ensures forall e :: e in Run(platform, interval, turns).events && e.DmesgReport? ==> |e.text| > 0
    decreases |turns|
  {
    if |turns| > 0 {
      NoEmptyDmesgReport(platform, interval, turns[..|turns| - 1]);
    }
  }

  /** Every turn starts, reports metrics and processes, ends and pauses for the interval. */
  lemma {:induction false} TurnsAreFramed(platform: Dmesg.Platform, interval: nat, turns: seq<Turn>)
    ensures var es := Run(platform, interval, turns).events;
            5 * |turns| <= |es| <= 6 * |turns|
            && (|turns| > 0 ==> es[0] == LoopStart && es[|es| - 1] == Sleep(interval))
    decreases |turns|
  {
    if |turns| > 0 {
      TurnsAreFramed(platform, interval, turns[..|turns| - 1]);
    }
  }

  /** What the loop has written after some turns is still at the front after more. */
  lemma {:induction false} RunPrefix(platform: Dmesg.Platform, interval: nat, turns: seq<Turn>, j: nat)
    requires j <= |turns|
    ensures Run(platform, interval, turns[..j]).events <= Run(platform, interval, turns).events
    decreases |turns|
  {
    if j < |turns| {
      var init := turns[..|turns| - 1];
      assert turns[..j] == init[..j];
      RunPrefix(platform, interval, init, j);
    } else {
      assert turns[..j] == turns;
    }
  }

  /** The events of turn `k` follow those of the turns before it. */
  lemma TurnBlock(platform: Dmesg.Platform, interval: nat, turns: seq<Turn>, k: nat)
    requires k < |turns|
    ensures var before := Run(platform, interval, turns[..k]);
            var outcome := Dmesg.Collected(platform, before.cursor, turns[k].dmesg);
            before.events + TurnEvents(turns[k], outcome, interval) <= Run(platform, interval, turns).events
  {
    RunStep(platform, interval, turns, k);
    RunPrefix(platform, interval, turns, k + 1);
  }

  /**
   * Turn `k` of the loop, where it stands in the output: start, metrics and
   * processes of that turn, then the kernel messages of that turn's
   * collection (nothing, a report or a failure), then end and the pause.
   */
  lemma TurnIsFramed(platform: Dmesg.Platform, interval: nat, turns: seq<Turn>, k: nat)
    requires k < |turns|
    ensures var es := Run(platform, interval, turns).events;
            var before := Run(platform, interval, turns[..k]);
            var d := DmesgEvents(Dmesg.Collected(platform, before.cursor, turns[k].dmesg));
            var s := |before.events|;
            && s + 5 + |d| <= |es|
            && es[s..s + 3] == [LoopStart, MetricsEvent(turns[k].metrics), ProcessEvent(turns[k].processes)]
            && es[s + 3..s + 3 + |d|] == d
            && es[s + 3 + |d|..s + 5 + |d|] == [LoopEnd, Sleep(interval)]
  {
    TurnBlock(platform, interval, turns, k);
    var before := Run(platform, interval, turns[..k]);
    TurnFrameAt(Run(platform, interval, turns).events, before.events, turns[k],
                Dmesg.Collected(platform, before.cursor, turns[k].dmesg), interval);
  }

  /** Where the events of one turn sit when they follow `front`. */
  lemma TurnFrameAt(es: seq<Event>, front: seq<Event>, t: Turn, outcome: DmesgOutcome, interval: nat)
    requires front + TurnEvents(t, outcome, interval) <= es
    ensures var d := DmesgEvents(outcome);
            var s := |front|;
            && s + 5 + |d| <= |es|
            && es[s..s + 3] == [LoopStart, MetricsEvent(t.metrics), ProcessEvent(t.processes)]
            && es[s + 3..s + 3 + |d|] == d
            && es[s + 3 + |d|..s + 5 + |d|] == [LoopEnd, Sleep(interval)]
  {
    var head := [LoopStart, MetricsEvent(t.metrics), ProcessEvent(t.processes)];
    var d := DmesgEvents(outcome);
    var tail := [LoopEnd, Sleep(interval)];
    assert TurnEvents(t, outcome, interval) == head + d + tail;
    FrameAt(es, front, head, d, tail);
  }

  /** Where a three-part block that follows `front` sits in a longer sequence. */
  lemma FrameAt<T>(xs: seq<T>, front: seq<T>, head: seq<T>, mid: seq<T>, tail: seq<T>)
    requires front + (head + mid + tail) <= xs
    ensures var s := |front|;
            && s + |head| + |mid| + |tail| <= |xs|
            && xs[s..s + |head|] == head
            && xs[s + |head|..s + |head| + |mid|] == mid
            && xs[s + |head| + |mid|..s + |head| + |mid| + |tail|] == tail
  {
    var s, e := |front|, |front| + |head| + |mid| + |tail|;
    assert xs[..e] == front + (head + mid + tail);
    assert xs[s..e] == head + mid + tail by {
      assert xs[s..e] == xs[..e][s..];
    }
    assert xs[s..s + |head|] == xs[s..e][..|head|];
    assert xs[s + |head|..s + |head| + |mid|] == xs[s..e][|head|..|head| + |mid|];
    assert xs[s + |head| + |mid|..e] == xs[s..e][|head| + |mid|..];
  }

  /** Off Linux the loop never gets a cursor and prints no kernel messages. */
  lemma {:induction false} OtherOsNoDmesg(interval: nat, turns: seq<Turn>)
    ensures Run(Dmesg.OtherOs, interval, turns).cursor.None?
    ensures forall e :: e in Run(Dmesg.OtherOs, interval, turns).events ==> !e.DmesgReport? && !e.DmesgFailure?
    decreases |turns|
  {
    if |turns| > 0 {
      OtherOsNoDmesg(interval, turns[..|turns| - 1]);
    }
  }

  lemma RunStep(platform: Dmesg.Platform, interval: nat, turns: seq<Turn>, i: nat)
    requires i < |turns|
    ensures var before := Run(platform, interval, turns[..i]);
            var outcome := Dmesg.Collected(platform, before.cursor, turns[i].dmesg);
            Run(platform, interval, turns[..i + 1])
            == State(before.events + TurnEvents(turns[i], outcome, interval), NextCursor(before.cursor, outcome))
  {
    assert turns[..i + 1][..i] == turns[..i];
  }

  /** What the loop does with the collector's answer: print non-empty text or the error, move the cursor on a new one. */
  method HandleDmesg(cursor: Option<real>, outcome: DmesgOutcome) returns (printed: seq<Event>, next: Option<real>)
    ensures printed == DmesgEvents(outcome)
    ensures next == NextCursor(cursor, outcome)
  {
    printed := [];
    next := cursor;
    match outcome {
      case Success((text, newLastTime)) =>
        if |text| > 0 {
          printed := [DmesgReport(text)];
        }
        if newLastTime.Some? {
          next := newLastTime;
        }
      case Failure(e) =>
        printed := [DmesgFailure(e)];
    }
  }

  /**
   * The `monitor` subcommand over the turns the environment gave: refused
   * when the interval is 0, otherwise the events of every turn and the last
   * cursor. The real loop never ends; this one stops when the turns do.
   */
  method MonitorLoop(platform: Dmesg.Platform, min: Option<nat>, sec: Option<nat>, turns: seq<Turn>)
    returns (r: Result<State, string>)
    requires min.Some? ==> min.value < Text.U64_LIMIT
    requires sec.Some? ==> sec.value < Text.U64_LIMIT
    ensures IntervalSecs(min, sec).Failure? ==> r == Failure(NO_INTERVAL)
    ensures IntervalSecs(min, sec).Success? ==> r == Success(Run(platform, IntervalSecs(min, sec).value, turns))
  {
    var interval := IntervalSecs(min, sec);
    if interval.Failure? {
      return Failure(interval.error);
    }
    var secs := interval.value;
    var events: seq<Event> := [];
    var lastDmesgTime: Option<real> := None;
    var i := 0;
    while i < |turns|
      invariant 0 <= i <= |turns|
      invariant Run(platform, secs, turns[..i]) == State(events, lastDmesgTime)
    {
      var t := turns[i];
      RunStep(platform, secs, turns, i);
      events := events + [LoopStart, MetricsEvent(t.metrics), ProcessEvent(t.processes)];
      var outcome := Dmesg.CollectDmesg(platform, lastDmesgTime, t.dmesg);
      var printed;
      printed, lastDmesgTime := HandleDmesg(lastDmesgTime, outcome);
      events := events + printed;
      events := events + [LoopEnd, Sleep(secs)];
      i := i + 1;
    }
    assert turns[..i] == turns;
    return Success(State(events, lastDmesgTime));
  }

  // ---------------------------------------------------------------------
  // get_all_data
  // ---------------------------------------------------------------------

  /**
   * The data endpoint's answer: the parsed data file, or the empty object
   * when the file cannot be read or does not parse. `parse` stands for the
   * JSON parser, `emptyObject` for `{}`.
   */
  function AllData<V>(content: Option<string>, parse: string -> Option<V>, emptyObject: V): (v: V)
    ensures content.None? ==> v == emptyObject
    ensures content.Some? && parse(content.value).None? ==> v == emptyObject
    ensures content.Some? && parse(content.value).Some? ==> v == parse(content.value).value
  {
    match content
    case None => emptyObject
    case Some(text) => parse(text).GetOr(emptyObject)
  }
}
