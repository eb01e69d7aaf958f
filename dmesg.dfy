// The kernel-log collector: timestamps read off `dmesg` lines, the filter
// that keeps lines newer than a cursor, and the cursor it hands back.

module Dmesg {
  import opened Wrappers
  import opened Text

  // ---------------------------------------------------------------------
  // Numbers: `str::parse::<f64>` on plain decimal text
  // ---------------------------------------------------------------------

  function Signed(negative: bool, v: real): real {
    if negative then -v else v
  }

  /** Digits before and after the point, as an exact value. */
  function DecimalValue(whole: string, frac: string): real
    requires AllDigits(whole) && AllDigits(frac)
  {
    DigitsValue(whole) as real + DigitsValue(frac) as real / Pow10(|frac|) as real
  }

  /** The number in a run of digits with an optional `.`, at least one digit in all. */
  function ParseUnsigned(body: string): (r: Option<real>)
    ensures r.Some? ==> |body| > 0
  {
    match IndexOf(body, '.')
    case None =>
      if |body| > 0 && AllDigits(body) then Some(DigitsValue(body) as real) else None
    case Some(k) =>
      var whole, frac := body[..k], body[k + 1..];
      if AllDigits(whole) && AllDigits(frac) && |whole| + |frac| > 0 then Some(DecimalValue(whole, frac))
      else None
  }

  /**
   * The decimal forms of `str::parse::<f64>`: an optional sign, then digits
   * with an optional `.`. The value is exact; rounding to the nearest
   * double is not modelled.
   */
  function ParseDecimal(s: string): (r: Option<real>)
    ensures r.Some? ==> |s| > 0
  {
    if |s| > 0 && (s[0] == '-' || s[0] == '+') then
      match ParseUnsigned(s[1..])
      case Some(v) => Some(Signed(s[0] == '-', v))
      case None => None
    else ParseUnsigned(s)
  }

  /** The text `dmesg` prints for a time: seconds, `.`, six digits of microseconds. */
  function Stamp(secs: nat, micros: nat): string {
    NatToString(secs) + "." + ZeroPad(micros, 6)
  }

  lemma Pow10Six()
    ensures Pow10(6) == 1000000
  {
    assert Pow10(1) == 10;
    assert Pow10(2) == 100;
    assert Pow10(3) == 1000;
    assert Pow10(4) == 10000;
    assert Pow10(5) == 100000;
  }

  /** Digits, `.`, digits: the whole part plus the fraction. */
  lemma DecimalWithPoint(whole: string, frac: string)
    requires |whole| > 0 && AllDigits(whole) && AllDigits(frac)
    ensures ParseDecimal(whole + "." + frac) == Some(DecimalValue(whole, frac))
  {
    var s := whole + "." + frac;
    assert '.' !in whole by {
      forall i | 0 <= i < |whole| ensures whole[i] != '.' {
        assert IsAsciiDigit(whole[i]);
      }
    }
    IndexOfAfter(whole, '.', frac);
    assert s[..|whole|] == whole;
    assert s[|whole| + 1..] == frac;
    assert s[0] == whole[0] && IsAsciiDigit(whole[0]);
  }

  /** A printed stamp parses back to the time it was printed from. */
  lemma StampValue(secs: nat, micros: nat)
    requires micros < 1000000
    ensures ParseDecimal(Stamp(secs, micros)) == Some(secs as real + micros as real / 1000000.0)
  {
    var whole, frac := NatToString(secs), ZeroPad(micros, 6);
    Pow10Six();
    ZeroPadValue(micros, 6);
    NatToStringValue(secs);
    assert |frac| == 6 && DigitsValue(frac) == micros && DigitsValue(whole) == secs;
    assert DecimalValue(whole, frac) == secs as real + micros as real / 1000000.0;
    DecimalWithPoint(whole, frac);
  }

  /** The stamp is a single word: no whitespace and no `]`. */
  lemma StampIsWord(secs: nat, micros: nat)
    ensures |Stamp(secs, micros)| > 0 && NoWhitespace(Stamp(secs, micros))
    ensures ']' !in Stamp(secs, micros)
  {
    var whole, frac := NatToString(secs), ZeroPad(micros, 6);
    var s := Stamp(secs, micros);
    ZeroPadValue(micros, 6);
    assert s == whole + "." + frac;
    forall i | 0 <= i < |s| ensures !IsWhitespace(s[i]) && s[i] != ']' {
      if i < |whole| {
        assert s[i] == whole[i] && IsAsciiDigit(whole[i]);
      } else if i > |whole| {
        assert s[i] == frac[i - |whole| - 1] && IsAsciiDigit(frac[i - |whole| - 1]);
      }
    }
  }

  // ---------------------------------------------------------------------
  // parse_timestamp
  // ---------------------------------------------------------------------

  /**
   * The time in a line shaped `[  secs.micros] message`: the trimmed text
   * between the leading `[` and the first `]`.
   */
  function ParseTimestamp(line: string): (r: Option<real>)
    ensures r.Some? ==> |line| > 0 && line[0] == '[' && ']' in line
  {
    if |line| == 0 || line[0] != '[' then None
    else match IndexOf(line, ']')
      case None => None
      case Some(end) =>
        assert end >= 1;
        ParseDecimal(Trim(line[1..end]))
  }

  /** Only a line that opens with `[` and closes that bracket can carry a time. */
  lemma UnbracketedLineHasNoTime(line: string)
    requires |line| == 0 || line[0] != '[' || ']' !in line
    ensures ParseTimestamp(line) == None
  {
    if |line| > 0 && line[0] == '[' && ']' !in line {
      IndexOfAbsent(line, ']');
    }
  }

  /** The time of a bracketed line is the number its bracket holds, padding aside. */
  lemma BracketedTimestamp(pad: string, word: string, message: string)
    requires forall i :: 0 <= i < |pad| ==> IsWhitespace(pad[i])
    requires |word| > 0 && NoWhitespace(word) && ']' !in word
    ensures ParseTimestamp("[" + pad + word + "]" + message) == ParseDecimal(word)
  {
    var head := "[" + pad + word;
    var line := head + "]" + message;
    assert ']' !in head by {
      forall i | 0 <= i < |head| ensures head[i] != ']' {
        if 0 < i <= |pad| {
          assert head[i] == pad[i - 1] && IsWhitespace(pad[i - 1]);
        } else if i > |pad| {
          assert head[i] == word[i - 1 - |pad|] && word[i - 1 - |pad|] in word;
        }
      }
    }
    IndexOfAfter(head, ']', message);
    assert line[1..|head|] == pad + word;
    TrimPaddedWord(pad, word);
  }

  /** A line as `dmesg` prints it reads back as the time it was printed with. */
  lemma DmesgLineTimestamp(pad: string, secs: nat, micros: nat, message: string)
    requires forall i :: 0 <= i < |pad| ==> IsWhitespace(pad[i])
    requires micros < 1000000
    ensures ParseTimestamp("[" + pad + Stamp(secs, micros) + "]" + message)
            == Some(secs as real + micros as real / 1000000.0)
  {
    StampIsWord(secs, micros);
    BracketedTimestamp(pad, Stamp(secs, micros), message);
    StampValue(secs, micros);
  }

  // ---------------------------------------------------------------------
  // collect_dmesg: the filter and the cursor
  //
  // Stated for any per-line time reader `timeOf`; the collector passes
  // ParseTimestamp. Keeping the reader abstract keeps these proofs about
  // the filter alone.
  // ---------------------------------------------------------------------

  /** A line is newer than `since` when its time reads and exceeds it. */
  predicate Newer(line: string, since: real, timeOf: string -> Option<real>) {
    match timeOf(line)
    case Some(ts) => ts > since
    case None => false
  }

  /** The lines kept when a cursor is given, in their original order. */
  function Kept(lines: seq<string>, since: real, timeOf: string -> Option<real>): seq<string>
    decreases |lines|
  {
    if |lines| == 0 then []
    else
      var last := lines[|lines| - 1];
      Kept(lines[..|lines| - 1], since, timeOf) + (if Newer(last, since, timeOf) then [last] else [])
  }

  /**
   * The cursor after reading `lines`, starting from `since`: the time of
   * the last line whose time reads and (when a cursor was given) is newer.
   */
  function Cursor(lines: seq<string>, since: Option<real>, timeOf: string -> Option<real>): Option<real>
    decreases |lines|
  {
    if |lines| == 0 then since
    else
      var prev := Cursor(lines[..|lines| - 1], since, timeOf);
      match timeOf(lines[|lines| - 1])
      case Some(ts) => if since.None? || ts > since.value then Some(ts) else prev
      case None => prev
  }

  /** The kept lines are exactly the lines whose time is newer than the cursor. */
  lemma {:induction false} KeptMembers(lines: seq<string>, since: real, timeOf: string -> Option<real>, x: string)
    ensures x in Kept(lines, since, timeOf) <==> x in lines && Newer(x, since, timeOf)
    decreases |lines|
  {
    if |lines| > 0 {
      var init := lines[..|lines| - 1];
      KeptMembers(init, since, timeOf, x);
      assert lines == init + [lines[|lines| - 1]];
    }
  }

  /** The filter keeps order: filtering a concatenation concatenates the filtered parts. */
  lemma {:induction false} KeptAppend(a: seq<string>, b: seq<string>, since: real, timeOf: string -> Option<real>)
    ensures Kept(a + b, since, timeOf) == Kept(a, since, timeOf) + Kept(b, since, timeOf)
    decreases |b|
  {
    if |b| == 0 {
      assert a + b == a;
    } else {
      var init := b[..|b| - 1];
      KeptAppend(a, init, since, timeOf);
      assert (a + b)[..|a + b| - 1] == a + init;
    }
  }

  /** With a cursor given, the new cursor exists and is never below it. */
  lemma {:induction false} CursorNotBelowSince(lines: seq<string>, since: real, timeOf: string -> Option<real>)
    ensures Cursor(lines, Some(since), timeOf).Some?
    ensures Cursor(lines, Some(since), timeOf).value >= since
    decreases |lines|
  {
    if |lines| > 0 {
      CursorNotBelowSince(lines[..|lines| - 1], since, timeOf);
    }
  }

  /** With a cursor given, the new cursor is the time of the last kept line, or the old cursor. */
  lemma {:induction false} CursorIsLastKept(lines: seq<string>, since: real, timeOf: string -> Option<real>)
    ensures var kept := Kept(lines, since, timeOf);
            Cursor(lines, Some(since), timeOf)
            == if |kept| == 0 then Some(since) else timeOf(kept[|kept| - 1])
    decreases |lines|
  {
    if |lines| > 0 {
      CursorIsLastKept(lines[..|lines| - 1], since, timeOf);
    }
  }

  /** Without a cursor, the result is `None` exactly when no line carries a time. */
  lemma {:induction false} CursorWithoutSinceNone(lines: seq<string>, timeOf: string -> Option<real>)
    ensures Cursor(lines, None, timeOf).None?
            <==> forall i :: 0 <= i < |lines| ==> timeOf(lines[i]).None?
    decreases |lines|
  {
    if |lines| > 0 {
      var init := lines[..|lines| - 1];
      CursorWithoutSinceNone(init, timeOf);
      assert forall i :: 0 <= i < |init| ==> init[i] == lines[i];
    }
  }

  /** Without a cursor, a result is the time of a line after which no line carries one. */
  lemma {:induction false} CursorWithoutSinceIsLast(lines: seq<string>, timeOf: string -> Option<real>)
    requires Cursor(lines, None, timeOf).Some?
    ensures exists i :: 0 <= i < |lines| && timeOf(lines[i]) == Cursor(lines, None, timeOf)
                        && forall j :: i < j < |lines| ==> timeOf(lines[j]).None?
    decreases |lines|
  {
    var n := |lines|;
    var init := lines[..n - 1];
    if timeOf(lines[n - 1]).Some? {
      assert timeOf(lines[n - 1]) == Cursor(lines, None, timeOf);
    } else {
      CursorWithoutSinceIsLast(init, timeOf);
      var i :| 0 <= i < |init| && timeOf(init[i]) == Cursor(init, None, timeOf)
                && forall j :: i < j < |init| ==> timeOf(init[j]).None?;
      assert init[i] == lines[i];
      assert forall j :: i < j < n - 1 ==> init[j] == lines[j];
    }
  }

  /** One more line: what the filter and the cursor do with it. */
  lemma FilterStep(lines: seq<string>, i: nat, since: Option<real>, timeOf: string -> Option<real>)
    requires i < |lines|
    ensures since.Some? ==>
              Kept(lines[..i + 1], since.value, timeOf)
              == Kept(lines[..i], since.value, timeOf) + (if Newer(lines[i], since.value, timeOf) then [lines[i]] else [])
    ensures Cursor(lines[..i + 1], since, timeOf)
            == match timeOf(lines[i])
               case Some(ts) => if since.None? || ts > since.value then Some(ts) else Cursor(lines[..i], since, timeOf)
               case None => Cursor(lines[..i], since, timeOf)
  {
    assert lines[..i + 1][..i] == lines[..i];
  }

  // ---------------------------------------------------------------------
  // collect_dmesg: the command and the loops
  // ---------------------------------------------------------------------

  /** Which build the collector was compiled for. */
  datatype Platform = Linux | OtherOs

  /** What running `dmesg` gave: no process at all, or an exit status and its output. */
  datatype DmesgRun = SpawnFailed | Exited(success: bool, stdout: string, stderr: string)

  datatype DmesgError = CouldNotSpawn | CommandFailed(message: string)

  const FAILED_PREFIX: string := "dmesg command failed: "

  /** The loop of the `since` branch: append each newer line, move the cursor to it. */
  method FilterNewer(lines: seq<string>, since: real, timeOf: string -> Option<real>)
    returns (filtered: string, last: Option<real>)
    ensures filtered == JoinLines(Kept(lines, since, timeOf))
    ensures last == Cursor(lines, Some(since), timeOf)
  {
    filtered := "";
    last := Some(since);
    var i := 0;
    while i < |lines|
      invariant 0 <= i <= |lines|
      invariant filtered == JoinLines(Kept(lines[..i], since, timeOf))
      invariant last == Cursor(lines[..i], Some(since), timeOf)
    {
      var line := lines[i];
      var stamp := timeOf(line);
      FilterStep(lines, i, Some(since), timeOf);
      if stamp.Some? && stamp.value > since {
        JoinLinesAppend(Kept(lines[..i], since, timeOf), line);
        filtered := filtered + line + "\n";
        last := stamp;
      } else {
        assert Kept(lines[..i], since, timeOf) + [] == Kept(lines[..i], since, timeOf);
      }
      i := i + 1;
    }
    assert lines[..i] == lines;
  }

  /** The loop of the branch without a cursor: the time of every line that has one replaces the last. */
  method LastTime(lines: seq<string>, timeOf: string -> Option<real>) returns (last: Option<real>)
    ensures last == Cursor(lines, None, timeOf)
  {
    last := None;
    var i := 0;
    while i < |lines|
      invariant 0 <= i <= |lines|
      invariant last == Cursor(lines[..i], None, timeOf)
    {
      var stamp := timeOf(lines[i]);
      FilterStep(lines, i, None, timeOf);
      if stamp.Some? {
        last := stamp;
      }
      i := i + 1;
    }
    assert lines[..i] == lines;
  }

  /**
   * What `collect_dmesg` returns: the log text and the cursor to pass next
   * time. On a build other than Linux the result is always empty with no
   * cursor; on Linux a cursor passed in comes back, or a later one.
   */
  function Collected(platform: Platform, since: Option<real>, run: DmesgRun): (r: Result<(string, Option<real>), DmesgError>)
    ensures platform == OtherOs ==> r == Success(("", None))
    ensures platform == Linux ==> (r.Failure? <==> run.SpawnFailed? || !run.success)
    ensures r.Failure? && run.Exited? ==> r.error == CommandFailed(FAILED_PREFIX + run.stderr)
    ensures platform == Linux && r.Success? && since.Some? ==> r.value.1.Some? && r.value.1.value >= since.value
    ensures platform == Linux && r.Success? && since.None? ==> r.value.0 == run.stdout
  {
    if platform == OtherOs then Success(("", None))
    else if run.SpawnFailed? then Failure(CouldNotSpawn)
    else if !run.success then Failure(CommandFailed(FAILED_PREFIX + run.stderr))
    else
      var lines := Lines(run.stdout);
      match since
      case Some(t) =>
        CursorNotBelowSince(lines, t, ParseTimestamp);
        Success((JoinLines(Kept(lines, t, ParseTimestamp)), Cursor(lines, since, ParseTimestamp)))
      case None => Success((run.stdout, Cursor(lines, None, ParseTimestamp)))
  }

  /** `collect_dmesg`: running the command, then one of the two loops over its lines. */
  method CollectDmesg(platform: Platform, since: Option<real>, run: DmesgRun)
    returns (r: Result<(string, Option<real>), DmesgError>)
    ensures r == Collected(platform, since, run)
  {
    if platform == OtherOs {
      return Success(("", None));
    }
    if run.SpawnFailed? {
      return Failure(CouldNotSpawn);
    }
    if !run.success {
      return Failure(CommandFailed(FAILED_PREFIX + run.stderr));
    }
    var lines := Lines(run.stdout);
    if since.Some? {
      var filtered, last := FilterNewer(lines, since.value, ParseTimestamp);
      return Success((filtered, last));
    } else {
      var last := LastTime(lines, ParseTimestamp);
      return Success((run.stdout, last));
    }
  }
}
