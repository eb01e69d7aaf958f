/**
 * The terminal bridge: what each pump of a session does with one item.
 *
 * A session has an outbound channel of strings (adapter -> client), an
 * input channel of strings (client -> shell), a registry entry holding
 * the outbound channel's sender, and three pumps inside the shell
 * adapter (stdout, stderr, stdin) plus two in the bridge (outbound,
 * inbound). The tasks and their race are not modelled; each pump is a
 * loop over the items it would see, in order.
 */
module SocketShell {
  import opened Wrappers
  import opened Text
  import opened Io

  // ---------------------------------------------------------------------
  // Envelopes
  // ---------------------------------------------------------------------

  datatype SystemInfo = SystemInfo(pwd: string, user: string, hostname: string, shell: string)

  datatype TerminalMessage = TerminalMessage(
    msgType: string,
    data: string,
    timestamp: int,
    systemInfo: Option<SystemInfo>)

  /** The text the stdout pump looks for. */
  const MARKER: string := "__SYSTEM_INFO__:"

  /** The tag in front of the first `:` of a marker line. */
  const TAG: string := "__SYSTEM_INFO__"

  /** The shell command that makes the shell print a marker line. */
  const PROBE: string := "echo \"__SYSTEM_INFO__:$(pwd):$(whoami):$(hostname):$SHELL\"\n"

  /** The `data` of every `system` envelope. */
  const SYSTEM_DATA: string := "System info updated"

  function OutputMessage(data: string, now: int): TerminalMessage {
    TerminalMessage("output", data, now, None)
  }

  function SystemMessage(info: SystemInfo, now: int): TerminalMessage {
    TerminalMessage("system", SYSTEM_DATA, now, Some(info))
  }

  /** What the outbound pump treats as an already encoded envelope. */
  predicate IsJsonObject(s: string) {
    StartsWith(s, "{") && EndsWith(s, "}")
  }

  function Quote(s: string): string {
    "\"" + s + "\""
  }

  /** `"name":value` pairs, comma separated, values already rendered. */
  function Members(fields: seq<(string, string)>): string
    decreases |fields|
  {
    if |fields| == 0 then ""
    else if |fields| == 1 then Quote(fields[0].0) + ":" + fields[0].1
    else Quote(fields[0].0) + ":" + fields[0].1 + "," + Members(fields[1..])
  }

  /** A JSON object with the given members, in order. */
  function JsonObject(fields: seq<(string, string)>): string {
    "{" + Members(fields) + "}"
  }

  function EncodeInfo(info: Option<SystemInfo>): string {
    match info
    case None => "null"
    case Some(i) =>
      JsonObject([("pwd", Quote(i.pwd)), ("user", Quote(i.user)), ("hostname", Quote(i.hostname)), ("shell", Quote(i.shell))])
  }

  /**
   * The JSON text of an envelope, fields in declaration order. String
   * escaping is not modelled; what the bridge relies on is only that the
   * text is one JSON object.
   */
  function Encode(m: TerminalMessage): string
  {
    JsonObject([("type", Quote(m.msgType)), ("data", Quote(m.data)),
                ("timestamp", IntToString(m.timestamp)), ("system_info", EncodeInfo(m.systemInfo))])
  }

  /** Every encoded envelope is one JSON object. */
  lemma EncodeIsJsonObject(m: TerminalMessage)
    ensures IsJsonObject(Encode(m))
  {
    var json := Encode(m);
    assert json == "{" + Members([("type", Quote(m.msgType)), ("data", Quote(m.data)),
                ("timestamp", IntToString(m.timestamp)), ("system_info", EncodeInfo(m.systemInfo))]) + "}";
    assert json[..1] == "{";
    assert json[|json| - 1..] == "}";
  }

  // ---------------------------------------------------------------------
  // Outbound pump: classification of one channel item
  // ---------------------------------------------------------------------

  /**
   * The frame the outbound pump writes to the client for one item taken
   * off the outbound channel at time `now`.
   */
  function OutboundFrame(item: string, now: int): string
  {
    if IsJsonObject(item) then item else Encode(OutputMessage(item, now))
  }

  /**
   * The client only ever gets JSON objects; an item is passed through
   * unchanged exactly when it already is one, so classifying a frame a
   * second time leaves it alone.
   */
  lemma OutboundFrameClassifies(item: string, now: int, later: int)
    ensures IsJsonObject(OutboundFrame(item, now))
    ensures OutboundFrame(item, now) == item <==> IsJsonObject(item)
    ensures OutboundFrame(OutboundFrame(item, now), later) == OutboundFrame(item, now)
  {
    EncodeIsJsonObject(OutputMessage(item, now));
  }

  // ---------------------------------------------------------------------
  // Inbound pump: dispatch of one client frame
  // ---------------------------------------------------------------------

  /**
   * A frame read from the client: a text frame together with what
   * decoding it as an envelope gave (None when it is not one), a frame of
   * another kind, or a receive error.
   */
  datatype ClientFrame = TextFrame(decoded: Option<TerminalMessage>) | OtherFrame | ErrorFrame

  /** What the inbound pump puts on the shell's input channel for one frame. */
  function Dispatch(frame: ClientFrame): (forward: Option<string>)
    ensures forward.Some? <==>
              frame.TextFrame? && frame.decoded.Some?
              && (frame.decoded.value.msgType == "input" || frame.decoded.value.msgType == "request_system_info")
    ensures forward.Some? && frame.decoded.value.msgType == "input" ==> forward.value == frame.decoded.value.data
    ensures forward.Some? && frame.decoded.value.msgType != "input" ==> forward.value == PROBE
  {
    match frame
    case TextFrame(Some(m)) =>
      if m.msgType == "input" then Some(m.data)
      else if m.msgType == "request_system_info" then Some(PROBE)
      else None
    case _ => None
  }

  /** Everything the inbound pump forwards for a run of frames, in order. */
  function Forwarded(frames: seq<ClientFrame>): seq<string>
  {
    if |frames| == 0 then []
    else
      var last := frames[|frames| - 1];
      Forwarded(frames[..|frames| - 1])
      + (match Dispatch(last) case Some(s) => [s] case None => [])
  }

  /**
   * The inbound pump: reads every frame until the client stream ends;
   * nothing it sees stops it early.
   */
  method InboundPump(frames: seq<ClientFrame>) returns (forwarded: seq<string>)
    ensures forwarded == Forwarded(frames)
  {
    forwarded := [];
    var i := 0;
    while i < |frames|
      invariant 0 <= i <= |frames|
      invariant forwarded == Forwarded(frames[..i])
    {
      assert frames[..i + 1][..i] == frames[..i];
      match Dispatch(frames[i]) {
        case Some(s) => forwarded := forwarded + [s];
        case None =>
      }
      i := i + 1;
    }
    assert frames[..i] == frames;
  }

  /**
   * Forwarding is frame by frame: a dropped frame (any type other than
   * `input` or `request_system_info`, a non-text frame, an undecodable
   * frame or a receive error) leaves what comes after it unaffected.
   */
  lemma {:induction false} ForwardedConcat(a: seq<ClientFrame>, b: seq<ClientFrame>)
    ensures Forwarded(a + b) == Forwarded(a) + Forwarded(b)
    decreases |b|
  {
    if |b| == 0 {
      assert a + b == a;
    } else {
      var n := |b| - 1;
      assert (a + b)[..|a + b| - 1] == a + b[..n];
      assert (a + b)[|a + b| - 1] == b[n];
      ForwardedConcat(a, b[..n]);
    }
  }

  // ---------------------------------------------------------------------
  // stdout pump: marker extraction from one chunk
  // ---------------------------------------------------------------------

  /** The first line that contains the marker. */
  function FindMarkerLine(ls: seq<string>): (line: Option<string>)
    ensures line.Some? ==> line.value in ls && Contains(line.value, MARKER)
    ensures line.None? ==> forall i :: 0 <= i < |ls| ==> !Contains(ls[i], MARKER)
  {
    if |ls| == 0 then None
    else if Contains(ls[0], MARKER) then Some(ls[0])
    else FindMarkerLine(ls[1..])
  }

  /**
   * A marker line split at every `:`: at least five parts, the first of
   * which holds the tag; parts 1 to 4 are the trimmed fields and any
   * further parts are ignored.
   */
  function ParseMarkerLine(line: string): Option<SystemInfo> {
    var parts := Split(line, ':');
    if |parts| >= 5 then
      Some(SystemInfo(Trim(parts[1]), Trim(parts[2]), Trim(parts[3]), Trim(parts[4])))
    else None
  }

  /** The system information a stdout chunk carries, if any. */
  function ParseChunk(output: string): Option<SystemInfo> {
    if Contains(output, MARKER) then
      match FindMarkerLine(Lines(output))
      case Some(line) => ParseMarkerLine(line)
      case None => None
    else None
  }

  /**
   * The one envelope the stdout pump produces for a chunk: a `system`
   * update when the chunk carries a well-formed marker line, in place of
   * the whole chunk; otherwise the whole chunk as `output`.
   */
  function StdoutEnvelope(output: string, now: int): (m: TerminalMessage)
    ensures m.timestamp == now
    ensures m.msgType == "system" || m.msgType == "output"
    ensures m.msgType == "system" ==> Contains(output, MARKER) && m.systemInfo.Some? && m.data == SYSTEM_DATA
    ensures m.msgType == "output" ==> m.data == output && m.systemInfo.None?
  {
    match ParseChunk(output)
    case Some(info) => SystemMessage(info, now)
    case None => OutputMessage(output, now)
  }

  /** The line a probe makes the shell print, after whatever `prefix` precedes it. */
  function ProbeLine(prefix: string, info: SystemInfo): string {
    prefix + MARKER + info.pwd + ":" + info.user + ":" + info.hostname + ":" + info.shell
  }

  /** A field that survives the probe line and trimming unchanged. */
  predicate PlainField(f: string) {
    ':' !in f && '\n' !in f && '\r' !in f
    && (|f| == 0 || (!IsWhitespace(f[0]) && !IsWhitespace(f[|f| - 1])))
  }

  /** A line of output that is not a marker line. */
  predicate PlainLine(l: string) {
    '\n' !in l && '\r' !in l && !Contains(l, MARKER)
  }

  lemma ProbeLineParts(prefix: string, info: SystemInfo)
    requires ':' !in prefix
    requires ':' !in info.pwd && ':' !in info.user && ':' !in info.hostname && ':' !in info.shell
    ensures Split(ProbeLine(prefix, info), ':') == [prefix + TAG, info.pwd, info.user, info.hostname, info.shell]
  {
    var parts := [prefix + TAG, info.pwd, info.user, info.hostname, info.shell];
    assert ':' !in TAG;
    assert ':' !in prefix + TAG;
    assert Join(parts, ':') == ProbeLine(prefix, info) by {
      assert Join(parts[4..], ':') == info.shell;
      assert Join(parts[3..], ':') == info.hostname + ":" + info.shell;
      assert Join(parts[2..], ':') == info.user + ":" + info.hostname + ":" + info.shell;
      assert Join(parts[1..], ':') == info.pwd + ":" + info.user + ":" + info.hostname + ":" + info.shell;
    }
    SplitJoin(parts, ':');
  }

  lemma {:induction false} FindMarkerLineSkips(before: seq<string>, line: string, after: seq<string>)
    requires forall i :: 0 <= i < |before| ==> !Contains(before[i], MARKER)
    requires Contains(line, MARKER)
    ensures FindMarkerLine(before + [line] + after) == Some(line)
    decreases |before|
  {
    if |before| > 0 {
      assert (before + [line] + after)[1..] == before[1..] + [line] + after;
      FindMarkerLineSkips(before[1..], line, after);
    }
  }

  /** A chunk made of whole lines and a rest splits into those lines, then the rest's. */
  lemma ChunkLines(before: seq<string>, line: string, after: string)
    requires forall i :: 0 <= i < |before| ==> '\n' !in before[i] && '\r' !in before[i]
    requires '\n' !in line && '\r' !in line
    ensures Lines(JoinLines(before) + line + "\n" + after) == before + [line] + Lines(after)
  {
    var ls := before + [line];
    JoinLinesAppend(before, line);
    assert forall i :: 0 <= i < |ls| ==> '\n' !in ls[i] && '\r' !in ls[i] by {
      assert forall i :: 0 <= i < |before| ==> ls[i] == before[i];
    }
    LinesAfterJoin(ls, after);
  }

  /** The marker a probe prints makes its chunk one the stdout pump inspects. */
  lemma ProbeLineHasMarker(prefix: string, info: SystemInfo, front: string, back: string)
    ensures Contains(ProbeLine(prefix, info), MARKER)
    ensures Contains(front + ProbeLine(prefix, info) + "\n" + back, MARKER)
  {
    var fields := info.pwd + ":" + info.user + ":" + info.hostname + ":" + info.shell;
    assert ProbeLine(prefix, info) == prefix + MARKER + fields;
    ContainsInfix(prefix, MARKER, fields);
    assert front + ProbeLine(prefix, info) + "\n" + back == (front + prefix) + MARKER + (fields + "\n" + back);
    ContainsInfix(front + prefix, MARKER, fields + "\n" + back);
  }

  /** A probe line built from plain fields is a single line. */
  lemma ProbeLineIsOneLine(prefix: string, info: SystemInfo)
    requires '\n' !in prefix && '\r' !in prefix
    requires PlainField(info.pwd) && PlainField(info.user) && PlainField(info.hostname) && PlainField(info.shell)
    ensures '\n' !in ProbeLine(prefix, info) && '\r' !in ProbeLine(prefix, info)
  {
  }

  /** A marker line's fields are its second to fifth `:` parts, trimmed. */
  lemma ParseFiveParts(line: string, tag: string, info: SystemInfo)
    requires Split(line, ':') == [tag, info.pwd, info.user, info.hostname, info.shell]
    requires Trim(info.pwd) == info.pwd && Trim(info.user) == info.user
    requires Trim(info.hostname) == info.hostname && Trim(info.shell) == info.shell
    ensures ParseMarkerLine(line) == Some(info)
  {
  }

  /** A probe's line parses back to the fields it printed. */
  lemma PlainFieldTrimmed(f: string)
    requires PlainField(f)
    ensures Trim(f) == f
  {
    TrimOfTrimmed(f);
  }

  lemma ProbeLineParses(prefix: string, info: SystemInfo)
    requires ':' !in prefix
    requires PlainField(info.pwd) && PlainField(info.user) && PlainField(info.hostname) && PlainField(info.shell)
    ensures ParseMarkerLine(ProbeLine(prefix, info)) == Some(info)
  {
    ProbeLineParts(prefix, info);
    PlainFieldTrimmed(info.pwd);
    PlainFieldTrimmed(info.user);
    PlainFieldTrimmed(info.hostname);
    PlainFieldTrimmed(info.shell);
    ParseFiveParts(ProbeLine(prefix, info), prefix + TAG, info);
  }

  /** In a chunk that carries a marker, the first marker line alone decides the parse. */
  lemma MarkerLineDecides(before: seq<string>, line: string, after: string)
    requires forall i :: 0 <= i < |before| ==> PlainLine(before[i])
    requires '\n' !in line && '\r' !in line && Contains(line, MARKER)
    ensures ParseChunk(JoinLines(before) + line + "\n" + after) == ParseMarkerLine(line)
  {
    ContainsWithin(JoinLines(before), line, MARKER, "\n" + after);
    assert JoinLines(before) + line + ("\n" + after) == JoinLines(before) + line + "\n" + after;
    ChunkLines(before, line, after);
    FindMarkerLineSkips(before, line, Lines(after));
  }

  /** A chunk whose first marker line parses becomes that `system` update. */
  lemma MarkerChunkEnvelope(before: seq<string>, line: string, after: string, info: SystemInfo, now: int)
    requires forall i :: 0 <= i < |before| ==> PlainLine(before[i])
    requires '\n' !in line && '\r' !in line && Contains(line, MARKER)
    requires ParseMarkerLine(line) == Some(info)
    ensures StdoutEnvelope(JoinLines(before) + line + "\n" + after, now) == SystemMessage(info, now)
  {
    MarkerLineDecides(before, line, after);
  }

  /**
   * The probe round trip: a chunk whose first marker line is the one a
   * probe printed, after any number of ordinary lines and followed by
   * anything, becomes exactly one `system` envelope carrying the probed
   * fields; the ordinary lines in front of it are not forwarded.
   */
  lemma ProbeRoundTrip(before: seq<string>, prefix: string, info: SystemInfo, after: string, now: int)
    requires forall i :: 0 <= i < |before| ==> PlainLine(before[i])
    requires ':' !in prefix && '\n' !in prefix && '\r' !in prefix
    requires PlainField(info.pwd) && PlainField(info.user) && PlainField(info.hostname) && PlainField(info.shell)
    ensures StdoutEnvelope(JoinLines(before) + ProbeLine(prefix, info) + "\n" + after, now)
            == SystemMessage(info, now)
  {
    ProbeLineIsOneLine(prefix, info);
    ProbeLineHasMarker(prefix, info, JoinLines(before), after);
    ProbeLineParses(prefix, info);
    MarkerChunkEnvelope(before, ProbeLine(prefix, info), after, info, now);
  }

  /**
   * Text after the fifth `:`-separated field of a marker line is ignored:
   * further `:` parts change nothing.
   */
  lemma ExtraFieldsIgnored(line: string, extra: string)
    requires |Split(line, ':')| >= 5
    ensures ParseMarkerLine(line + ":" + extra) == ParseMarkerLine(line)
  {
    SplitConcat(line, ':', extra);
  }

  /**
   * Only the first marker line of a chunk counts: when it has fewer than
   * five parts the whole chunk goes out as `output`, even if a well-formed
   * marker line follows.
   */
  lemma FirstMarkerLineDecides(before: seq<string>, line: string, after: string, now: int)
    requires forall i :: 0 <= i < |before| ==> PlainLine(before[i])
    requires '\n' !in line && '\r' !in line && Contains(line, MARKER)
    requires |Split(line, ':')| < 5
    ensures StdoutEnvelope(JoinLines(before) + line + "\n" + after, now)
            == OutputMessage(JoinLines(before) + line + "\n" + after, now)
  {
    MarkerLineDecides(before, line, after);
  }

  /** A marker whose path holds a `:` is split at it: the fields shift. */
  lemma ColonInPathShiftsFields(head: string, tail: string, info: SystemInfo)
    requires PlainField(head) && PlainField(tail)
    requires PlainField(info.user) && PlainField(info.hostname) && PlainField(info.shell)
    requires info.pwd == head + ":" + tail
    ensures ParseMarkerLine(ProbeLine("", info))
            == Some(SystemInfo(head, tail, info.user, info.hostname))
  {
    var shifted := SystemInfo(head, tail, info.user, info.hostname);
    assert ProbeLine("", info) == ProbeLine("", shifted) + ":" + info.shell;
    ProbeLineParts("", shifted);
    ExtraFieldsIgnored(ProbeLine("", shifted), info.shell);
    ProbeLineParses("", shifted);
  }

  // ---------------------------------------------------------------------
  // Progress of a loop that writes to an endpoint
  // ---------------------------------------------------------------------

  /**
   * Where a writing loop stands after some of its turns: what its
   * endpoint accepted, whether the loop goes on, and how many calls it
   * has made on the endpoint.
   */
  datatype Progress = Progress(writes: seq<string>, proceed: bool, calls: nat)

  // ---------------------------------------------------------------------
  // stdout and stderr pumps over a stream of reads
  // ---------------------------------------------------------------------

  /** One read of a pipe, already decoded to text, with the clock at that time. */
  datatype ReadResult = Chunk(text: string, now: int) | Eof | ReadError

  datatype Stream = Stdout | Stderr

  /** The envelope for one chunk: only stdout is scanned for the marker. */
  function ChunkEnvelope(stream: Stream, text: string, now: int): (m: TerminalMessage)
    ensures stream == Stderr ==> m == OutputMessage(text, now)
  {
    match stream
    case Stdout => StdoutEnvelope(text, now)
    case Stderr => OutputMessage(text, now)
  }

  /**
   * What one read makes a pump do, its send numbered `c`: a chunk's
   * envelope is sent, and a failed send ends the pump unless the envelope
   * is a `system` one; EOF and a read error end it without a send.
   */
  function PumpStep(stream: Stream, read: ReadResult, failures: set<nat>, c: nat): Progress {
    match read
    case Chunk(text, now) =>
      var m := ChunkEnvelope(stream, text, now);
      var ok := c !in failures;
      Progress(if ok then [Encode(m)] else [], ok || m.systemInfo.Some?, c + 1)
    case _ => Progress([], false, c)
  }

  /** A read pump after the reads in `handled`, its sends numbered from `c`. */
  function PumpRun(stream: Stream, handled: seq<ReadResult>, failures: set<nat>, c: nat): Progress
    decreases |handled|
  {
    if |handled| == 0 then Progress([], true, c)
    else
      var r := PumpRun(stream, handled[..|handled| - 1], failures, c);
      if !r.proceed then r
      else
        var d := PumpStep(stream, handled[|handled| - 1], failures, r.calls);
        Progress(r.writes + d.writes, d.proceed, d.calls)
  }

  /** Once a pump has stopped, later reads change nothing. */
  lemma {:induction false} PumpRunStopped(stream: Stream, results: seq<ReadResult>, k: nat, failures: set<nat>, c: nat)
    requires k <= |results|
    requires !PumpRun(stream, results[..k], failures, c).proceed
    ensures PumpRun(stream, results, failures, c) == PumpRun(stream, results[..k], failures, c)
    decreases |results| - k
  {
    if k < |results| {
      assert results[..k + 1][..k] == results[..k];
      PumpRunStopped(stream, results, k + 1, failures, c);
    } else {
      assert results[..k] == results;
    }
  }

  /** One turn of a read pump's loop. */
  method PumpTurn(stream: Stream, read: ReadResult, channel: Endpoint) returns (going: bool)
    modifies channel
    ensures var d := PumpStep(stream, read, channel.failures, old(channel.calls));
            channel.log == old(channel.log) + d.writes && channel.calls == d.calls && going == d.proceed
  {
    match read {
      case Chunk(text, now) =>
        var m := ChunkEnvelope(stream, text, now);
        var ok := channel.Send(Encode(m));
        going := ok || m.systemInfo.Some?;
      case _ =>
        going := false;
    }
  }

  /** One more read, after a prefix that left the pump going. */
  lemma PumpRunStep(stream: Stream, results: seq<ReadResult>, i: nat, failures: set<nat>, c: nat)
    requires i < |results|
    requires PumpRun(stream, results[..i], failures, c).proceed
    ensures var r := PumpRun(stream, results[..i], failures, c);
            var d := PumpStep(stream, results[i], failures, r.calls);
            PumpRun(stream, results[..i + 1], failures, c) == Progress(r.writes + d.writes, d.proceed, d.calls)
  {
    assert results[..i + 1][..i] == results[..i];
  }

  /** The loop of the stdout or stderr task. */
  method ReadPump(stream: Stream, results: seq<ReadResult>, channel: Endpoint)
    modifies channel
    ensures channel.log == old(channel.log) + PumpRun(stream, results, channel.failures, old(channel.calls)).writes
  {
    ghost var log0, c0 := channel.log, channel.calls;
    ghost var p := Progress([], true, c0);
    var i := 0;
    var going := true;
    while i < |results| && going
      invariant 0 <= i <= |results|
      invariant p == PumpRun(stream, results[..i], channel.failures, c0)
      invariant channel.log == log0 + p.writes && channel.calls == p.calls && going == p.proceed
      decreases |results| - i, going
    {
      PumpRunStep(stream, results, i, channel.failures, c0);
      ghost var d := PumpStep(stream, results[i], channel.failures, p.calls);
      going := PumpTurn(stream, results[i], channel);
      p := Progress(p.writes + d.writes, d.proceed, d.calls);
      i := i + 1;
    }
    if going {
      assert results[..i] == results;
    } else {
      PumpRunStopped(stream, results, i, channel.failures, c0);
    }
  }

  /** Items that are all JSON objects. */
  predicate AllObjects(w: seq<string>) {
    forall j :: 0 <= j < |w| ==> IsJsonObject(w[j])
  }

  lemma ObjectsConcat(a: seq<string>, b: seq<string>)
    requires AllObjects(a) && AllObjects(b)
    ensures AllObjects(a + b)
  {
  }

  /** A single read sends nothing but encoded envelopes. */
  lemma PumpStepSendsObjects(stream: Stream, read: ReadResult, failures: set<nat>, c: nat)
    ensures AllObjects(PumpStep(stream, read, failures, c).writes)
  {
    if read.Chunk? {
      EncodeIsJsonObject(ChunkEnvelope(stream, read.text, read.now));
    }
  }

  /** Every item a read pump sends is an encoded envelope. */
  lemma {:induction false} PumpSendsObjects(stream: Stream, results: seq<ReadResult>, failures: set<nat>, c: nat)
    ensures AllObjects(PumpRun(stream, results, failures, c).writes)
    decreases |results|
  {
    if |results| > 0 {
      var n := |results| - 1;
      PumpSendsObjects(stream, results[..n], failures, c);
      var r := PumpRun(stream, results[..n], failures, c);
      if r.proceed {
        var d := PumpStep(stream, results[n], failures, r.calls);
        PumpStepSendsObjects(stream, results[n], failures, r.calls);
        ObjectsConcat(r.writes, d.writes);
      }
    }
  }

  /** So the outbound pump passes everything a read pump sends to the client unchanged. */
  lemma PumpItemsPassVerbatim(stream: Stream, results: seq<ReadResult>, failures: set<nat>, c: nat, now: int)
    ensures var w := PumpRun(stream, results, failures, c).writes;
            forall j :: 0 <= j < |w| ==> OutboundFrame(w[j], now) == w[j]
  {
    PumpSendsObjects(stream, results, failures, c);
    var w := PumpRun(stream, results, failures, c).writes;
    forall j | 0 <= j < |w|
      ensures OutboundFrame(w[j], now) == w[j]
    {
      assert IsJsonObject(w[j]);
      OutboundFrameClassifies(w[j], now, now);
    }
  }

  /**
   * With every send accepted, a pump that reads only chunks sends one
   * envelope per chunk, in the order read, and makes one send per chunk.
   */
  lemma {:induction false} PumpSendsEveryChunk(stream: Stream, results: seq<ReadResult>, c: nat)
    requires forall j :: 0 <= j < |results| ==> results[j].Chunk?
    ensures var p := PumpRun(stream, results, {}, c);
            p.proceed && p.calls == c + |results| && |p.writes| == |results|
            && forall j :: 0 <= j < |results| ==>
                 p.writes[j] == Encode(ChunkEnvelope(stream, results[j].text, results[j].now))
    decreases |results|
  {
    if |results| > 0 {
      PumpSendsEveryChunk(stream, results[..|results| - 1], c);
    }
  }

  /** Reads after the first EOF or read error are never looked at. */
  lemma PumpEndsAtEof(stream: Stream, results: seq<ReadResult>, k: nat, failures: set<nat>, c: nat)
    requires k < |results| && !results[k].Chunk?
    ensures PumpRun(stream, results, failures, c).writes == PumpRun(stream, results[..k], failures, c).writes
  {
    assert results[..k + 1][..k] == results[..k];
    PumpRunStopped(stream, results, k + 1, failures, c);
  }

  // ---------------------------------------------------------------------
  // stdin pump
  // ---------------------------------------------------------------------

  /** `HOME`, or `/` when it is unset. */
  function HomeDir(home: Option<string>): string {
    home.GetOr("/")
  }

  function CdCommand(home: string): string {
    "cd " + home + "\n"
  }

  /** The writes one user input causes: the input, then a probe when it holds a newline. */
  function InputWrites(input: string): seq<string> {
    if '\n' in input then [input, PROBE] else [input]
  }

  /** The writes for a run of inputs when nothing fails. */
  function FlattenWrites(inputs: seq<string>): seq<string>
    decreases |inputs|
  {
    if |inputs| == 0 then [] else FlattenWrites(inputs[..|inputs| - 1]) + InputWrites(inputs[|inputs| - 1])
  }

  /**
   * Writing `items` in turn, each write followed by a flush, calls
   * numbered from `c`; the first failed write or flush ends it.
   */
  function WriteAll(items: seq<string>, failures: set<nat>, c: nat): Progress
    decreases |items|
  {
    if |items| == 0 then Progress([], true, c)
    else if c in failures then Progress([], false, c + 1)
    else if c + 1 in failures then Progress([items[0]], false, c + 2)
    else
      var r := WriteAll(items[1..], failures, c + 2);
      Progress([items[0]] + r.writes, r.proceed, r.calls)
  }

  /** The input loop after the inputs in `handled`, its calls numbered from `c`. */
  function InputRun(handled: seq<string>, failures: set<nat>, c: nat): Progress
    decreases |handled|
  {
    if |handled| == 0 then Progress([], true, c)
    else
      var r := InputRun(handled[..|handled| - 1], failures, c);
      if !r.proceed then r
      else
        var o := WriteAll(InputWrites(handled[|handled| - 1]), failures, r.calls);
        Progress(r.writes + o.writes, o.proceed, o.calls)
  }

  /** One more input, after a prefix that left the pump going. */
  lemma InputRunStep(inputs: seq<string>, i: nat, failures: set<nat>, c: nat)
    requires i < |inputs|
    requires InputRun(inputs[..i], failures, c).proceed
    ensures var r := InputRun(inputs[..i], failures, c);
            var o := WriteAll(InputWrites(inputs[i]), failures, r.calls);
            InputRun(inputs[..i + 1], failures, c) == Progress(r.writes + o.writes, o.proceed, o.calls)
  {
    assert inputs[..i + 1][..i] == inputs[..i];
  }

  /** Once the input loop has stopped, later inputs change nothing. */
  lemma {:induction false} InputRunStopped(inputs: seq<string>, k: nat, failures: set<nat>, c: nat)
    requires k <= |inputs|
    requires !InputRun(inputs[..k], failures, c).proceed
    ensures InputRun(inputs, failures, c) == InputRun(inputs[..k], failures, c)
    decreases |inputs| - k
  {
    if k < |inputs| {
      assert inputs[..k + 1][..k] == inputs[..k];
      InputRunStopped(inputs, k + 1, failures, c);
    } else {
      assert inputs[..k] == inputs;
    }
  }

  /**
   * The priming writes, calls numbered from `c`: `cd <home>` and, only if
   * that write succeeded, the probe; flush results are ignored, and the
   * input loop runs whatever happened here.
   */
  function Priming(home: string, failures: set<nat>, c: nat): Progress {
    if c in failures then Progress([], true, c + 1)
    else if c + 2 in failures then Progress([CdCommand(home)], true, c + 3)
    else Progress([CdCommand(home), PROBE], true, c + 4)
  }

  /** Everything the stdin task gets written. */
  function StdinWrites(home: string, inputs: seq<string>, failures: set<nat>, c: nat): seq<string> {
    var p := Priming(home, failures, c);
    p.writes + InputRun(inputs, failures, p.calls).writes
  }

  /** Writing one item: a failed write or flush stops, otherwise the item lands. */
  lemma WriteAllOne(x: string, failures: set<nat>, c: nat)
    ensures WriteAll([x], failures, c)
            == if c in failures then Progress([], false, c + 1)
               else if c + 1 in failures then Progress([x], false, c + 2)
               else Progress([x], true, c + 2)
  {
    assert [x][1..] == [];
  }

  /** Writing two items: the first as for one item, then the second after it. */
  lemma WriteAllTwo(x: string, y: string, failures: set<nat>, c: nat)
    ensures var o := WriteAll([y], failures, c + 2);
            WriteAll([x, y], failures, c)
            == if c in failures then Progress([], false, c + 1)
               else if c + 1 in failures then Progress([x], false, c + 2)
               else Progress([x] + o.writes, o.proceed, o.calls)
  {
    assert [x, y][1..] == [y];
  }

  /** One turn of the stdin task's loop. */
  method WriteInput(x: string, stdin: Endpoint) returns (proceed: bool)
    modifies stdin
    ensures var o := WriteAll(InputWrites(x), stdin.failures, old(stdin.calls));
            stdin.log == old(stdin.log) + o.writes && proceed == o.proceed && stdin.calls == o.calls
  {
    ghost var c := stdin.calls;
    if '\n' in x {
      assert InputWrites(x) == [x, PROBE];
      WriteAllTwo(x, PROBE, stdin.failures, c);
      WriteAllOne(PROBE, stdin.failures, c + 2);
    } else {
      assert InputWrites(x) == [x];
      WriteAllOne(x, stdin.failures, c);
    }
    proceed := stdin.Send(x);
    if !proceed {
      return;
    }
    proceed := stdin.Flush();
    if !proceed {
      return;
    }
    if '\n' in x {
      proceed := stdin.Send(PROBE);
      if !proceed {
        return;
      }
      proceed := stdin.Flush();
    }
  }

  /** The priming writes of the stdin task. */
  method Prime(dir: string, stdin: Endpoint)
    modifies stdin
    ensures var p := Priming(dir, stdin.failures, old(stdin.calls));
            stdin.log == old(stdin.log) + p.writes && stdin.calls == p.calls
  {
    var ok := stdin.Send(CdCommand(dir));
    if ok {
      var _ := stdin.Flush();
      ok := stdin.Send(PROBE);
      if ok {
        var _ := stdin.Flush();
      }
    }
  }

  /** The input loop of the stdin task. */
  method InputLoop(inputs: seq<string>, stdin: Endpoint)
    modifies stdin
    ensures stdin.log == old(stdin.log) + InputRun(inputs, stdin.failures, old(stdin.calls)).writes
  {
    var i := 0;
    var going := true;
    while i < |inputs| && going
      invariant 0 <= i <= |inputs|
      invariant stdin.log == old(stdin.log) + InputRun(inputs[..i], stdin.failures, old(stdin.calls)).writes
      invariant stdin.calls == InputRun(inputs[..i], stdin.failures, old(stdin.calls)).calls
      invariant going == InputRun(inputs[..i], stdin.failures, old(stdin.calls)).proceed
      decreases |inputs| - i, going
    {
      InputRunStep(inputs, i, stdin.failures, old(stdin.calls));
      going := WriteInput(inputs[i], stdin);
      i := i + 1;
    }
    if going {
      assert inputs[..i] == inputs;
    } else {
      InputRunStopped(inputs, i, stdin.failures, old(stdin.calls));
    }
  }

  /** The stdin task. */
  method StdinPump(home: Option<string>, inputs: seq<string>, stdin: Endpoint)
    modifies stdin
    ensures stdin.log == old(stdin.log) + StdinWrites(HomeDir(home), inputs, stdin.failures, old(stdin.calls))
  {
    Prime(HomeDir(home), stdin);
    InputLoop(inputs, stdin);
  }

  /** When none of its calls fail, writing `items` writes all of them. */
  lemma {:induction false} WriteAllSucceeds(items: seq<string>, failures: set<nat>, c: nat)
    requires forall k :: c <= k < c + 2 * |items| ==> k !in failures
    ensures WriteAll(items, failures, c) == Progress(items, true, c + 2 * |items|)
    decreases |items|
  {
    if |items| > 0 {
      WriteAllSucceeds(items[1..], failures, c + 2);
    }
  }

  /** Whatever fails, writing `items` writes a prefix of them, all of them when it goes on. */
  lemma {:induction false} WriteAllPrefix(items: seq<string>, failures: set<nat>, c: nat)
    ensures var w := WriteAll(items, failures, c);
            |w.writes| <= |items| && w.writes == items[..|w.writes|]
            && (w.proceed ==> w.writes == items)
    decreases |items|
  {
    if |items| > 0 && c !in failures && c + 1 !in failures {
      WriteAllPrefix(items[1..], failures, c + 2);
    }
  }

  /**
   * When no call fails, the input loop writes each input unchanged, each
   * input holding a newline followed by exactly one probe.
   */
  lemma {:induction false} InputRunAllSucceed(inputs: seq<string>, c: nat)
    ensures InputRun(inputs, {}, c).writes == FlattenWrites(inputs)
    ensures InputRun(inputs, {}, c).proceed
    decreases |inputs|
  {
    if |inputs| > 0 {
      var n := |inputs| - 1;
      InputRunAllSucceed(inputs[..n], c);
      WriteAllSucceeds(InputWrites(inputs[n]), {}, InputRun(inputs[..n], {}, c).calls);
    }
  }

  /**
   * When no call fails, the shell gets `cd <home>`, one probe, and then
   * the writes of every input.
   */
  lemma StdinWritesWhenAllSucceed(home: string, inputs: seq<string>, c: nat)
    ensures StdinWrites(home, inputs, {}, c) == [CdCommand(home), PROBE] + FlattenWrites(inputs)
  {
    InputRunAllSucceed(inputs, c + 4);
  }

  /**
   * Whatever fails, the input loop writes a prefix of what it would write
   * if nothing failed: inputs are never altered, reordered or skipped,
   * and no probe is written without the input that caused it.
   */
  lemma {:induction false} InputRunPrefix(inputs: seq<string>, failures: set<nat>, c: nat)
    ensures var w := InputRun(inputs, failures, c);
            |w.writes| <= |FlattenWrites(inputs)| && w.writes == FlattenWrites(inputs)[..|w.writes|]
            && (w.proceed ==> w.writes == FlattenWrites(inputs))
    decreases |inputs|
  {
    if |inputs| > 0 {
      var n := |inputs| - 1;
      InputRunPrefix(inputs[..n], failures, c);
      var r := InputRun(inputs[..n], failures, c);
      if r.proceed {
        WriteAllPrefix(InputWrites(inputs[n]), failures, r.calls);
        var o := WriteAll(InputWrites(inputs[n]), failures, r.calls);
        assert FlattenWrites(inputs) == FlattenWrites(inputs[..n]) + InputWrites(inputs[n]);
        assert FlattenWrites(inputs)[..|r.writes + o.writes|] == r.writes + o.writes;
      } else {
        assert FlattenWrites(inputs) == FlattenWrites(inputs[..n]) + InputWrites(inputs[n]);
        assert FlattenWrites(inputs)[..|r.writes|] == FlattenWrites(inputs[..n])[..|r.writes|];
      }
    }
  }

  /**
   * A `request_system_info` forwards the probe as input; since the probe
   * ends in a newline, the stdin loop follows it with a second probe.
   */
  lemma RequestSystemInfoProbesTwice(now: int)
    ensures Dispatch(TextFrame(Some(TerminalMessage("request_system_info", "", now, None)))) == Some(PROBE)
    ensures InputWrites(PROBE) == [PROBE, PROBE]
  {
    assert PROBE[|PROBE| - 1] == '\n';
  }

  // ---------------------------------------------------------------------
  // Session registry and the outbound pump
  // ---------------------------------------------------------------------

  /** The sender half of a session's outbound channel, by identity. */
  datatype Sink = Sink(channel: nat)

  /** The process-wide map from session id to outbound sender. */
  class SessionRegistry {
    var sessions: map<string, Sink>

    constructor ()
      ensures sessions == map[]
    {
      sessions := map[];
    }

    /** `insert`: overwrites any entry for `id`. */
    method Insert(id: string, sink: Sink)
      modifies this
      ensures sessions == old(sessions)[id := sink]
    {
      sessions := sessions[id := sink];
    }

    /** `remove`: no effect when `id` is absent. */
    method Remove(id: string)
      modifies this
      ensures sessions == old(sessions) - {id}
    {
      sessions := sessions - {id};
    }
  }

  /** One item taken off the outbound channel, with the clock at that time. */
  datatype Received = Received(item: string, now: int)

  /**
   * The outbound loop after the items in `handled`, its writes to the
   * client numbered from `c`: a failed write ends the loop.
   */
  function OutboundRun(handled: seq<Received>, failures: set<nat>, c: nat): Progress
    decreases |handled|
  {
    if |handled| == 0 then Progress([], true, c)
    else
      var r := OutboundRun(handled[..|handled| - 1], failures, c);
      var last := handled[|handled| - 1];
      if !r.proceed then r
      else if r.calls in failures then Progress(r.writes, false, r.calls + 1)
      else Progress(r.writes + [OutboundFrame(last.item, last.now)], true, r.calls + 1)
  }

  /** Once the outbound loop has stopped, later items change nothing. */
  lemma {:induction false} OutboundRunStopped(items: seq<Received>, k: nat, failures: set<nat>, c: nat)
    requires k <= |items|
    requires !OutboundRun(items[..k], failures, c).proceed
    ensures OutboundRun(items, failures, c) == OutboundRun(items[..k], failures, c)
    decreases |items| - k
  {
    if k < |items| {
      assert items[..k + 1][..k] == items[..k];
      OutboundRunStopped(items, k + 1, failures, c);
    } else {
      assert items[..k] == items;
    }
  }

  /**
   * The client is sent the frame of every item, in order, up to the first
   * failed write, and the loop stops exactly when a write fails.
   */
  lemma {:induction false} OutboundRunFrames(items: seq<Received>, failures: set<nat>, c: nat)
    ensures var r := OutboundRun(items, failures, c);
            |r.writes| <= |items|
            && (forall j :: 0 <= j < |r.writes| ==> r.writes[j] == OutboundFrame(items[j].item, items[j].now))
            && (r.proceed <==> forall k :: c <= k < c + |items| ==> k !in failures)
            && (r.proceed ==> |r.writes| == |items| && r.calls == c + |items|)
            && (!r.proceed ==> r.calls == c + |r.writes| + 1 && r.calls - 1 in failures)
    decreases |items|
  {
    if |items| > 0 {
      OutboundRunFrames(items[..|items| - 1], failures, c);
    }
  }

  /** One more frame, after a prefix that left the pump going. */
  lemma OutboundRunStep(items: seq<Received>, i: nat, failures: set<nat>, c: nat)
    requires i < |items|
    requires OutboundRun(items[..i], failures, c).proceed
    ensures var r := OutboundRun(items[..i], failures, c);
            OutboundRun(items[..i + 1], failures, c)
            == if r.calls in failures then Progress(r.writes, false, r.calls + 1)
               else Progress(r.writes + [OutboundFrame(items[i].item, items[i].now)], true, r.calls + 1)
  {
    assert items[..i + 1][..i] == items[..i];
  }

  /**
   * The outbound task: it writes one frame per received item and, once
   * its loop has ended, removes the session's registry entry. The loop
   * ends when a write fails or the channel closes; the channel cannot
   * close while the registry holds its sender, so after the last item it
   * ever receives the loop keeps waiting and the entry stays.
   */
  method OutboundPump(registry: SessionRegistry, id: string, items: seq<Received>, client: Endpoint)
    modifies registry, client
    ensures client.log == old(client.log) + OutboundRun(items, client.failures, old(client.calls)).writes
    ensures registry.sessions
            == if OutboundRun(items, client.failures, old(client.calls)).proceed then old(registry.sessions)
               else old(registry.sessions) - {id}
  {
    var i := 0;
    var going := true;
    while i < |items| && going
      invariant 0 <= i <= |items|
      invariant registry.sessions == old(registry.sessions)
      invariant client.log == old(client.log) + OutboundRun(items[..i], client.failures, old(client.calls)).writes
      invariant client.calls == OutboundRun(items[..i], client.failures, old(client.calls)).calls
      invariant going == OutboundRun(items[..i], client.failures, old(client.calls)).proceed
      decreases |items| - i, going
    {
      OutboundRunStep(items, i, client.failures, old(client.calls));
      going := client.Send(OutboundFrame(items[i].item, items[i].now));
      i := i + 1;
    }
    if going {
      assert items[..i] == items;
    } else {
      OutboundRunStopped(items, i, client.failures, old(client.calls));
      registry.Remove(id);
    }
  }

  /** The registry after a session, as the source runs it. */
  function RegistryAfterSession(before: map<string, Sink>, id: string, sink: Sink,
                                items: seq<Received>, failures: set<nat>, c: nat): map<string, Sink>
  {
    if OutboundRun(items, failures, c).proceed then before[id := sink] else before - {id}
  }

  /**
   * `handle_socket`: the entry is inserted before any task starts, and
   * only the outbound task removes it.
   */
  method HandleSocket(registry: SessionRegistry, id: string, sink: Sink, items: seq<Received>, client: Endpoint)
    modifies registry, client
    ensures client.log == old(client.log) + OutboundRun(items, client.failures, old(client.calls)).writes
    ensures registry.sessions == RegistryAfterSession(old(registry.sessions), id, sink, items, client.failures, old(client.calls))
  {
    registry.Insert(id, sink);
    OutboundPump(registry, id, items, client);
  }

  /**
   * A session none of whose frames fails to reach the client keeps its
   * registry entry once the client has gone: no write fails, so the
   * outbound loop never ends and never removes it.
   */
  lemma RegistryEntryOutlivesQuietSession(before: map<string, Sink>, id: string, sink: Sink,
                                          items: seq<Received>, failures: set<nat>, c: nat)
    requires forall k :: c <= k < c + |items| ==> k !in failures
    ensures id in RegistryAfterSession(before, id, sink, items, failures, c)
    ensures RegistryAfterSession(before, id, sink, items, failures, c)[id] == sink
  {
    OutboundRunFrames(items, failures, c);
  }

  /**
   * `handle_socket` with the entry removed once either task ends, so
   * that every session leaves the registry as it found it
   * apart from its own id, whatever happened to the client.
   */
  method HandleSocketCorrected(registry: SessionRegistry, id: string, sink: Sink, items: seq<Received>, client: Endpoint)
    modifies registry, client
    ensures client.log == old(client.log) + OutboundRun(items, client.failures, old(client.calls)).writes
    ensures registry.sessions == old(registry.sessions) - {id}
  {
    registry.Insert(id, sink);
    OutboundPump(registry, id, items, client);
    registry.Remove(id);
  }
}
