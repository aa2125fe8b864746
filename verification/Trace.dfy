/** Run events, the trace file they are written to, and the reader of that file. */
module Trace {
  import opened Prelude
  import opened Lines

  const MAX_EVENT_JSON_BYTES: nat := 64 * 1024
  const MAX_TRACE_LINE_BYTES: nat := MAX_EVENT_JSON_BYTES + 1

  datatype EventKind =
    | TaskEvent
    | ModelEvent
    | ToolCallEvent
    | ToolResultEvent
    | DiffEvent
    | VerificationEvent
    | CheckpointEvent
    | RollbackEvent
    | ApprovalEvent
    | SessionEvent
    | ProjectRulesEvent
    | SandboxEvent
    | WarningEvent
    | CompletionEvent
    | TerminationEvent

  datatype Payload = Payload(text: string, traceComplete: Option<bool>)

  datatype RunEvent = RunEvent(
    runId: string, sequence: nat, step: nat, timestamp: string, kind: EventKind, payload: Payload)

  /** What parsing a line gives: how far it got, and for a whole event whether its type
      is one of the known ones. */
  datatype Parsed = NotJson | NotObject | OtherSchema | BadFields | Fields(event: RunEvent, known: bool)

  /** Canonical JSON of an event, whether it can be encoded at all (a key of the payload
      may hold half of a surrogate pair), its parser, the short payload that replaces one that is
      too large, and the redaction of payloads: the recorder's, which knows the sensitive
      values of the run, and the reader's. */
  datatype Codec = Codec(
    canonical: RunEvent -> seq<byte>, parse: seq<byte> -> Parsed, oversize: nat -> Payload,
    redact: Payload -> Payload, sanitize: Payload -> Payload, validTimestamp: string -> bool,
    encodable: RunEvent -> bool)

  /** JSON text has no raw line feed, and an event with a valid timestamp parses back. */
  ghost predicate Sound(c: Codec) {
    forall e {:trigger c.canonical(e)} ::
      LF !in c.canonical(e) && (c.validTimestamp(e.timestamp) ==> c.parse(c.canonical(e)) == Fields(e, true))
  }

  function Redacted(c: Codec, e: RunEvent): RunEvent {
    e.(payload := c.redact(e.payload))
  }

  /** The size of an event whose payload the recorder has redacted. */
  function FullSize(c: Codec, e: RunEvent): nat {
    |c.canonical(Redacted(c, e))|
  }

  /** The event as it is written: redacted, and whole or with the short payload. */
  function Stored(c: Codec, e: RunEvent): (stored: RunEvent)
    ensures stored.(payload := e.payload) == e
  {
    if FullSize(c, e) <= MAX_EVENT_JSON_BYTES then Redacted(c, e) else e.(payload := c.oversize(FullSize(c, e)))
  }

  /** The event as the reader gives it back: the payload is redacted once more. */
  function Recovered(c: Codec, e: RunEvent): (recovered: RunEvent)
    ensures recovered.(payload := e.payload) == e
  {
    Stored(c, e).(payload := c.sanitize(Stored(c, e).payload))
  }

  function Json(c: Codec, e: RunEvent): seq<byte> {
    c.canonical(Stored(c, e))
  }

  function Encoded(c: Codec, e: RunEvent): seq<byte> {
    Json(c, e) + [LF]
  }

  /** What reaches the file of an event: its line carries the redacted payload, or the short
      form if that makes the line longer than 64 KiB, and nothing else of the payload; it
      ends with a line feed, and reading it back sanitizes the payload once more. */
  lemma OnlyRedactedIsWritten(c: Codec, e: RunEvent)
    ensures var full := e.(payload := c.redact(e.payload));
            var size := |c.canonical(full)|;
            var written := if size <= 65536 then full else e.(payload := c.oversize(size));
            && Encoded(c, e) == c.canonical(written) + [10]
            && Recovered(c, e) == e.(payload := c.sanitize(written.payload))
  {
  }

  predicate Fits(c: Codec, e: RunEvent) {
    |Json(c, e)| <= MAX_TRACE_LINE_BYTES
  }

  // ----- the size of the short form -----

  function KindName(kind: EventKind): (name: string)
    ensures |name| <= 13
  {
    match kind
    case TaskEvent => "task"
    case ModelEvent => "model"
    case ToolCallEvent => "tool_call"
    case ToolResultEvent => "tool_result"
    case DiffEvent => "diff"
    case VerificationEvent => "verification"
    case CheckpointEvent => "checkpoint"
    case RollbackEvent => "rollback"
    case ApprovalEvent => "approval"
    case SessionEvent => "session"
    case ProjectRulesEvent => "project_rules"
    case SandboxEvent => "sandbox"
    case WarningEvent => "warning"
    case CompletionEvent => "completion"
    case TerminationEvent => "termination"
  }

  /** Text that JSON writes as it is, one byte for each character. */
  predicate PlainText(s: string) {
    forall i | 0 <= i < |s| :: ' ' <= s[i] <= '~' && s[i] != '"' && s[i] != '\\'
  }

  /** Keys, punctuation, schema version and the fixed text of the short payload. */
  const SHORT_FORM_BYTES: nat := 190

  function ShortLength(e: RunEvent, originalBytes: nat): nat {
    SHORT_FORM_BYTES + |KindName(e.kind)| + |e.runId| + |e.timestamp| +
    Digits(e.sequence) + Digits(e.step) + Digits(originalBytes)
  }

  /** The short form is the fixed text, the names and three numbers. */
  ghost predicate ShortForms(c: Codec) {
    forall e: RunEvent, n: nat {:trigger c.canonical(e.(payload := c.oversize(n)))} ::
      PlainText(e.runId) && PlainText(e.timestamp) ==>
        |c.canonical(e.(payload := c.oversize(n)))| == ShortLength(e, n)
  }

  /** A line is too large to be read back exactly when the event is too large and its
      numbers alone fill the short form. */
  lemma WrittenLinesFit(c: Codec, e: RunEvent)
    requires ShortForms(c) && PlainText(e.runId) && PlainText(e.timestamp)
    ensures Fits(c, e) <==>
            FullSize(c, e) <= MAX_EVENT_JSON_BYTES || ShortLength(e, FullSize(c, e)) <= MAX_TRACE_LINE_BYTES
  {
    var n := FullSize(c, e);
    assert |c.canonical(e.(payload := c.oversize(n)))| == ShortLength(e, n);
  }

  const RUN_ID_LENGTH: nat := 32
  const TIMESTAMP_LENGTH: nat := 27

  /** With the run ids and timestamps of the runtime every line fits whose three numbers
      have together at most 65000 digits. */
  lemma OrdinaryLinesFit(c: Codec, e: RunEvent)
    requires ShortForms(c) && PlainText(e.runId) && PlainText(e.timestamp)
    requires |e.runId| == RUN_ID_LENGTH && |e.timestamp| == TIMESTAMP_LENGTH
    requires Digits(e.sequence) + Digits(e.step) + Digits(FullSize(c, e)) <= 65_000
    ensures Fits(c, e)
  {
    WrittenLinesFit(c, e);
  }

  function EncodedAll(c: Codec, events: seq<RunEvent>): seq<byte> {
    if events == [] then [] else Encoded(c, events[0]) + EncodedAll(c, events[1..])
  }

  function RecoveredAll(c: Codec, events: seq<RunEvent>): (recovered: seq<RunEvent>)
    ensures |recovered| == |events| && forall i :: 0 <= i < |events| ==> recovered[i] == Recovered(c, events[i])
  {
    if events == [] then []
    else RecoveredAll(c, events[..|events| - 1]) + [Recovered(c, events[|events| - 1])]
  }

  function LinesOf(c: Codec, events: seq<RunEvent>): (lines: seq<Line>)
    ensures |lines| == |events| && forall i :: 0 <= i < |events| ==> lines[i] == Line(Json(c, events[i]), true)
  {
    if events == [] then []
    else LinesOf(c, events[..|events| - 1]) + [Line(Json(c, events[|events| - 1]), true)]
  }

  lemma LinesOfHead(c: Codec, events: seq<RunEvent>)
    requires events != []
    ensures LinesOf(c, events) == [Line(Json(c, events[0]), true)] + LinesOf(c, events[1..])
  {
    hide Json;
    var lines, more := LinesOf(c, events), LinesOf(c, events[1..]);
    assert forall i :: 0 <= i < |more| ==> more[i] == lines[i + 1];
  }

  /** The physical lines of a file are the events written to it, then the rest. */
  lemma {:induction false} PhysicalOfEncoded(c: Codec, events: seq<RunEvent>, rest: seq<byte>)
    requires Sound(c)
    ensures Physical(EncodedAll(c, events) + rest) == LinesOf(c, events) + Physical(rest)
  {
    hide Physical, LinesOf, Json;
    if events == [] {
      assert [] + rest == rest;
      NoLines(c);
    } else {
      var more := EncodedAll(c, events[1..]);
      var first := Json(c, events[0]);
      assert EncodedAll(c, events) + rest == first + [LF] + (more + rest);
      OneLine(c, events[0]);
      PhysicalHead(first, more + rest);
      PhysicalOfEncoded(c, events[1..], rest);
      LinesOfHead(c, events);
    }
  }

  lemma NoLines(c: Codec)
    ensures LinesOf(c, []) == []
  {
  }

  lemma OneLine(c: Codec, e: RunEvent)
    requires Sound(c)
    ensures LF !in Json(c, e)
  {
  }

  lemma {:induction false} EncodedAllNext(c: Codec, events: seq<RunEvent>, e: RunEvent)
    ensures EncodedAll(c, events + [e]) == EncodedAll(c, events) + Encoded(c, e)
  {
    if events == [] {
      assert [e][1..] == [];
    } else {
      EncodedAllNext(c, events[1..], e);
      assert (events + [e])[1..] == events[1..] + [e];
    }
  }

  // ----- reading -----

  datatype Issue = Issue(code: string, line: Option<nat>)

  function Decode(c: Codec, runId: string, raw: seq<byte>): Result<RunEvent, string> {
    match c.parse(raw)
    case NotJson => Err("MALFORMED_JSONL")
    case NotObject => Err("MALFORMED_EVENT")
    case OtherSchema => Err("UNKNOWN_SCHEMA")
    case BadFields => Err("MALFORMED_EVENT")
    case Fields(e, known) =>
      if e.runId != runId || e.sequence < 1 then Err("MALFORMED_EVENT")
      else if !known then Err("UNKNOWN_EVENT_TYPE")
      else Ok(e.(payload := c.sanitize(e.payload)))
  }

  datatype Scanned = Scanned(events: seq<RunEvent>, issues: seq<Issue>, previous: nat)

  function ScanItem(c: Codec, runId: string, s: Scanned, item: Item): Scanned {
    if |item.bytes| > MAX_TRACE_LINE_BYTES then s.(issues := s.issues + [Issue("EVENT_TOO_LARGE", Some(item.number))])
    else
      var tail := if item.complete then s.issues else s.issues + [Issue("TRUNCATED_TAIL", Some(item.number))];
      match Decode(c, runId, item.bytes)
      case Err(code) => s.(issues := tail + [Issue(code, Some(item.number))])
      case Ok(e) =>
        Scanned(s.events + [e],
                if e.sequence <= s.previous then tail + [Issue("INVALID_SEQUENCE", Some(item.number))] else tail,
                Max(s.previous, e.sequence))
  }

  function Scan(c: Codec, runId: string, items: seq<Item>): Scanned {
    if items == [] then Scanned([], [], 0)
    else ScanItem(c, runId, Scan(c, runId, items[..|items| - 1]), items[|items| - 1])
  }

  /** A line is an event exactly when it parses as a known event of this run with a number
      from one on; then its payload is sanitized. Every other line has one code. */
  lemma DecodeExactly(c: Codec, runId: string, raw: seq<byte>)
    ensures var r, p := Decode(c, runId, raw), c.parse(raw);
            var ours := p.Fields? && p.event.runId == runId && p.event.sequence > 0;
            && (r.Ok? <==> ours && p.known)
            && (r.Ok? ==> r.value == p.event.(payload := c.sanitize(p.event.payload)))
            && (r == Err("MALFORMED_JSONL") <==> p == NotJson)
            && (r == Err("UNKNOWN_SCHEMA") <==> p == OtherSchema)
            && (r == Err("UNKNOWN_EVENT_TYPE") <==> ours && !p.known)
            && (r == Err("MALFORMED_EVENT") <==> p == NotObject || p == BadFields || (p.Fields? && !ours))
  {
  }

  /** The line `item` adds this issue. */
  predicate AddsIssue(c: Codec, runId: string, previous: nat, item: Item, code: string) {
    var fits := |item.bytes| <= 65537;
    var decoded := Decode(c, runId, item.bytes);
    || (code == "EVENT_TOO_LARGE" && !fits)
    || (code == "TRUNCATED_TAIL" && fits && !item.complete)
    || (code == "INVALID_SEQUENCE" && fits && decoded.Ok? && decoded.value.sequence <= previous)
    || (fits && decoded == Err(code))
  }

  /** One line adds an event exactly when it fits and is one, adds exactly the issues it
      has, each with its own line number, and moves the highest number seen. */
  lemma LineExactly(c: Codec, runId: string, s: Scanned, item: Item)
    ensures var s', decoded := ScanItem(c, runId, s, item), Decode(c, runId, item.bytes);
            var ok := |item.bytes| <= 65537 && decoded.Ok?;
            && s'.events == s.events + (if ok then [decoded.value] else [])
            && s.issues <= s'.issues && |s'.issues| <= |s.issues| + 2
            && (forall issue :: issue in s'.issues[|s.issues|..] <==>
                  issue.line == Some(item.number) && AddsIssue(c, runId, s.previous, item, issue.code))
            && s'.previous == if ok && decoded.value.sequence > s.previous then decoded.value.sequence else s.previous
  {
    hide Decode;
    DecodeExactly(c, runId, item.bytes);
    var decoded := Decode(c, runId, item.bytes);
    var torn := if item.complete then [] else [Issue("TRUNCATED_TAIL", Some(item.number))];
    var added :=
      if |item.bytes| > 65537 then [Issue("EVENT_TOO_LARGE", Some(item.number))]
      else
        torn +
        match decoded
        case Err(code) => [Issue(code, Some(item.number))]
        case Ok(e) => if e.sequence <= s.previous then [Issue("INVALID_SEQUENCE", Some(item.number))] else [];
    var s' := ScanItem(c, runId, s, item);
    assert s'.issues == s.issues + added;
    assert s'.issues[|s.issues|..] == added;
  }

  /** The number a line is compared with is the highest before it. */
  lemma {:induction false} PreviousIsHighest(c: Codec, runId: string, items: seq<Item>)
    ensures var s := Scan(c, runId, items);
            && (forall e :: e in s.events ==> e.sequence <= s.previous)
            && (s.previous == 0 || exists e :: e in s.events && e.sequence == s.previous)
  {
    hide ScanItem, Decode;
    if items != [] {
      var init, item := items[..|items| - 1], items[|items| - 1];
      PreviousIsHighest(c, runId, init);
      var s := Scan(c, runId, init);
      LineExactly(c, runId, s, item);
      var decoded := Decode(c, runId, item.bytes);
      if |item.bytes| <= 65537 && decoded.Ok? && decoded.value.sequence > s.previous {
        assert decoded.value in Scan(c, runId, items).events;
      }
    }
  }

  lemma {:induction false} LastTerminationIs(events: seq<RunEvent>)
    ensures match LastTermination(events)
            case None => forall e :: e in events ==> e.kind != TerminationEvent
            case Some(t) => exists k :: 0 <= k < |events| && events[k] == t && t.kind == TerminationEvent &&
                                        forall j :: k < j < |events| ==> events[j].kind != TerminationEvent
  {
    if events != [] {
      var init := events[..|events| - 1];
      LastTerminationIs(init);
      assert events == init + [events[|events| - 1]];
      if events[|events| - 1].kind != TerminationEvent && LastTermination(init).Some? {
        var k :| 0 <= k < |init| && init[k] == LastTermination(init).value && init[k].kind == TerminationEvent &&
                 forall j :: k < j < |init| ==> init[j].kind != TerminationEvent;
        assert events[k] == init[k];
      }
    }
  }

  /** The report: every event read, in the order of the numbers; the issues of the lines, and
      one more if no event ends the run; and the trace is complete exactly when there is no
      issue and the last such event does not say otherwise. */
  lemma ReportExactly(s: Scanned)
    ensures var r := Report(s);
            && multiset(r.events) == multiset(s.events) && SortedBy(r.events, BySequence)
            && var ended := exists e :: e in s.events && e.kind == TerminationEvent;
               && r.issues == s.issues + (if ended then [] else [Issue("MISSING_TERMINATION", None)])
               && (r.complete <==> ended && s.issues == [] &&
                                   LastTermination(r.events).value.payload.traceComplete != Some(false))
  {
    hide LastTermination;
    SortedKeepsAll(s.events, BySequence);
    LastTerminationIs(Sorted(s.events, BySequence));
    assert s.issues + [] == s.issues;
  }

  predicate BySequence(a: RunEvent, b: RunEvent) {
    a.sequence <= b.sequence
  }

  function LastTermination(events: seq<RunEvent>): Option<RunEvent> {
    if events == [] then None
    else if events[|events| - 1].kind == TerminationEvent then Some(events[|events| - 1])
    else LastTermination(events[..|events| - 1])
  }

  datatype ReadResult = ReadResult(events: seq<RunEvent>, issues: seq<Issue>, complete: bool)

  function Report(s: Scanned): ReadResult {
    var events := Sorted(s.events, BySequence);
    var termination := LastTermination(events);
    var issues := if termination == None then s.issues + [Issue("MISSING_TERMINATION", None)] else s.issues;
    ReadResult(events, issues, EndsComplete(termination) && issues == [])
  }

  /** The last termination event does not itself admit an incomplete trace. */
  predicate EndsComplete(termination: Option<RunEvent>) {
    termination.Some? && termination.value.payload.traceComplete != Some(false)
  }

  function Read(c: Codec, runId: string, content: seq<byte>): ReadResult {
    Report(Scan(c, runId, ShownAll(MAX_TRACE_LINE_BYTES, Physical(content))))
  }

  method ReadTrace(c: Codec, runId: string, content: seq<byte>) returns (r: ReadResult)
    ensures r == Read(c, runId, content)
  {
    hide Physical, Report, ScanItem;
    var stream := new ByteReader(content);
    var items := BoundedLines(stream, MAX_TRACE_LINE_BYTES);
    var s := Scanned([], [], 0);
    for i := 0 to |items|
      invariant s == Scan(c, runId, items[..i])
    {
      assert items[..i + 1][..i] == items[..i];
      s := ScanItem(c, runId, s, items[i]);
    }
    assert items[..|items|] == items;
    r := Report(s);
  }

  // ----- what a complete trace proves -----

  /** Events of one run as an emitter makes them: positive increasing numbers, valid
      timestamps. */
  predicate Numbered(c: Codec, events: seq<RunEvent>, runId: string) {
    && (forall i :: 0 <= i < |events| ==>
          events[i].sequence >= 1 && events[i].runId == runId && c.validTimestamp(events[i].timestamp))
    && forall i, j :: 0 <= i < j < |events| ==> events[i].sequence < events[j].sequence
  }

  function LastNumber(events: seq<RunEvent>): nat {
    if events == [] then 0 else events[|events| - 1].sequence
  }

  predicate AllFit(c: Codec, events: seq<RunEvent>) {
    forall i :: 0 <= i < |events| ==> Fits(c, events[i])
  }

  lemma LinesOfNext(c: Codec, init: seq<RunEvent>, e: RunEvent)
    ensures LinesOf(c, init + [e]) == LinesOf(c, init) + [Line(Json(c, e), true)]
    ensures RecoveredAll(c, init + [e]) == RecoveredAll(c, init) + [Recovered(c, e)]
  {
    assert (init + [e])[..|init|] == init;
  }

  lemma ScanNext(c: Codec, runId: string, lines: seq<Line>, line: Line)
    ensures Scan(c, runId, ShownAll(MAX_TRACE_LINE_BYTES, lines + [line])) ==
            ScanItem(c, runId, Scan(c, runId, ShownAll(MAX_TRACE_LINE_BYTES, lines)), Shown(MAX_TRACE_LINE_BYTES, |lines| + 1, line))
  {
    hide ScanItem, ShownAll;
    ShownAllNext(MAX_TRACE_LINE_BYTES, lines, line);
    var items := ShownAll(MAX_TRACE_LINE_BYTES, lines);
    var item := Shown(MAX_TRACE_LINE_BYTES, |lines| + 1, line);
    assert (items + [item])[..|items|] == items;
  }

  /** Whole lines read back as the events that were written, without an issue, exactly
      when every line fits. */
  lemma {:induction false} ScanWritten(c: Codec, runId: string, events: seq<RunEvent>)
    requires Sound(c) && Numbered(c, events, runId)
    ensures var s := Scan(c, runId, ShownAll(MAX_TRACE_LINE_BYTES, LinesOf(c, events)));
            if AllFit(c, events) then s == Scanned(RecoveredAll(c, events), [], LastNumber(events)) else s.issues != []
  {
    hide Scan, LinesOf, ShownAll, AllFit, Json, Stored, Recovered;
    if events == [] {
      ScanNothing(c, runId, events);
    } else {
      var init, e := events[..|events| - 1], events[|events| - 1];
      assert events == init + [e];
      ScanWritten(c, runId, init);
      LinesOfNext(c, init, e);
      ScanNext(c, runId, LinesOf(c, init), Line(Json(c, e), true));
      AllFitNext(c, init, e);
      if AllFit(c, init) {
        WrittenItem(c, runId, init, e);
      }
    }
  }

  lemma AllFitNext(c: Codec, init: seq<RunEvent>, e: RunEvent)
    ensures AllFit(c, init + [e]) <==> AllFit(c, init) && Fits(c, e)
  {
    hide Fits;
    assert (init + [e])[|init|] == e;
    assert forall i :: 0 <= i < |init| ==> (init + [e])[i] == init[i];
  }

  /** Scanning one more written line after lines that all fit. */
  lemma WrittenItem(c: Codec, runId: string, init: seq<RunEvent>, e: RunEvent)
    requires Sound(c) && e.sequence > LastNumber(init) && e.runId == runId && c.validTimestamp(e.timestamp)
    ensures var before := Scanned(RecoveredAll(c, init), [], LastNumber(init));
            var after := ScanItem(c, runId, before, Shown(MAX_TRACE_LINE_BYTES, |init| + 1, Line(Json(c, e), true)));
            if Fits(c, e) then after == Scanned(RecoveredAll(c, init) + [Recovered(c, e)], [], e.sequence) else after.issues != []
  {
    hide RecoveredAll;
    assert c.parse(Json(c, e)) == Fields(Stored(c, e), true);
  }

  lemma ScanNothing(c: Codec, runId: string, events: seq<RunEvent>)
    requires events == []
    ensures AllFit(c, events) && RecoveredAll(c, events) == []
    ensures Scan(c, runId, ShownAll(MAX_TRACE_LINE_BYTES, LinesOf(c, events))) == Scanned([], [], 0)
  {
  }

  /** Sorting events that are already in order changes nothing. */
  lemma {:induction false} SortedAlready(events: seq<RunEvent>)
    requires forall i, j :: 0 <= i < j < |events| ==> events[i].sequence < events[j].sequence
    ensures Sorted(events, BySequence) == events
  {
    if events != [] {
      SortedAlready(events[1..]);
      assert events == [events[0]] + events[1..];
    }
  }

  lemma ReadWhole(c: Codec, runId: string, events: seq<RunEvent>)
    requires Sound(c) && Numbered(c, events, runId)
    ensures var r := Read(c, runId, EncodedAll(c, events));
            && (r.complete <==> AllFit(c, events) && EndsComplete(LastTermination(RecoveredAll(c, events))))
            && (r.complete ==> r.events == RecoveredAll(c, events))
  {
    hide Scan, LinesOf, ShownAll, Physical, EncodedAll, LastTermination, AllFit;
    PhysicalOfEncoded(c, events, []);
    assert EncodedAll(c, events) + [] == EncodedAll(c, events);
    NothingShown(MAX_TRACE_LINE_BYTES);
    assert LinesOf(c, events) + [] == LinesOf(c, events);
    ScanWritten(c, runId, events);
    if AllFit(c, events) {
      SortedAlready(RecoveredAll(c, events));
    }
  }

  /** A tail without a line feed is never overlooked. */
  lemma ReadTorn(c: Codec, runId: string, events: seq<RunEvent>, torn: seq<byte>)
    requires Sound(c) && torn != [] && LF !in torn
    ensures !Read(c, runId, EncodedAll(c, events) + torn).complete
  {
    hide Scan, LinesOf, ShownAll, EncodedAll, LastTermination;
    PhysicalOfEncoded(c, events, torn);
    assert torn[..|torn|] == torn;
    LineEndIs(torn, |torn|);
    assert Physical(torn) == [Line(torn, false)];
    ScanNext(c, runId, LinesOf(c, events), Line(torn, false));
  }

  /** What a write that failed part way may leave of an event's line. */
  ghost predicate Torn(c: Codec, emitted: seq<RunEvent>, k: nat, torn: seq<byte>)
    requires k <= |emitted|
  {
    torn == [] || (k < |emitted| && torn <= Encoded(c, emitted[k]))
  }

  /** How many events are wholly in the file. */
  function WholeLines(c: Codec, emitted: seq<RunEvent>, k: nat, torn: seq<byte>): (n: nat)
    requires k <= |emitted|
    ensures k <= n <= |emitted|
  {
    if k < |emitted| && torn == Encoded(c, emitted[k]) then k + 1 else k
  }

  /** A file holding the first `k` emitted events and what a failed write left of the
      next reads as complete exactly when nothing is torn, every line fits, and the last
      termination event among them does not admit an incomplete trace; then exactly the
      events in the file are returned, in order. */
  lemma CompleteExactly(c: Codec, runId: string, emitted: seq<RunEvent>, k: nat, torn: seq<byte>)
    requires Sound(c) && Numbered(c, emitted, runId) && k <= |emitted| && Torn(c, emitted, k, torn)
    ensures var r := Read(c, runId, EncodedAll(c, emitted[..k]) + torn);
            var n := WholeLines(c, emitted, k, torn);
            && (r.complete <==>
                  && (torn == [] || n == k + 1)
                  && AllFit(c, emitted[..n])
                  && EndsComplete(LastTermination(RecoveredAll(c, emitted[..n]))))
            && (r.complete ==> r.events == RecoveredAll(c, emitted[..n]))
  {
    hide Read, EncodedAll, AllFit, LastTermination, RecoveredAll, Encoded, EndsComplete;
    var n := WholeLines(c, emitted, k, torn);
    if torn == [] {
      assert EncodedAll(c, emitted[..k]) + torn == EncodedAll(c, emitted[..k]);
      EncodedNotEmpty(c, emitted, k);
      ReadWhole(c, runId, emitted[..k]);
    } else if n == k + 1 {
      EncodedAllNext(c, emitted[..k], emitted[k]);
      assert emitted[..k] + [emitted[k]] == emitted[..k + 1];
      ReadWhole(c, runId, emitted[..k + 1]);
    } else {
      TornHasNoLineFeed(c, emitted[k], torn);
      ReadTorn(c, runId, emitted[..k], torn);
    }
  }

  lemma EncodedNotEmpty(c: Codec, emitted: seq<RunEvent>, k: nat)
    ensures k < |emitted| ==> Encoded(c, emitted[k]) != []
  {
  }

  lemma TornHasNoLineFeed(c: Codec, e: RunEvent, torn: seq<byte>)
    requires Sound(c) && torn <= Encoded(c, e) && torn != Encoded(c, e)
    ensures LF !in torn
  {
    assert torn == Encoded(c, e)[..|torn|];
    assert |torn| <= |Json(c, e)|;
    forall i | 0 <= i < |torn| ensures torn[i] != LF {
      assert torn[i] == Json(c, e)[i] && Json(c, e)[i] in Json(c, e);
    }
  }

  lemma {:induction false} LastTerminationIsOne(events: seq<RunEvent>)
    requires LastTermination(events).Some?
    ensures exists i :: 0 <= i < |events| && events[i].kind == TerminationEvent && LastTermination(events) == Some(events[i])
  {
    var n := |events| - 1;
    if events[n].kind != TerminationEvent {
      LastTerminationIsOne(events[..n]);
      var i :| 0 <= i < n && events[..n][i].kind == TerminationEvent && LastTermination(events[..n]) == Some(events[..n][i]);
      assert events[i].kind == TerminationEvent;
    }
  }

  /** A complete trace holds every event up to and including the termination event of the
      run, in order, if the run emits one. */
  lemma CompleteMeansWhole(c: Codec, runId: string, emitted: seq<RunEvent>, k: nat, torn: seq<byte>, t: nat)
    requires Sound(c) && Numbered(c, emitted, runId) && k <= |emitted| && Torn(c, emitted, k, torn)
    requires t < |emitted| && forall i :: 0 <= i < |emitted| ==> (emitted[i].kind == TerminationEvent <==> i == t)
    requires Read(c, runId, EncodedAll(c, emitted[..k]) + torn).complete
    ensures var events := Read(c, runId, EncodedAll(c, emitted[..k]) + torn).events;
            t < |events| && forall i :: 0 <= i <= t ==> events[i] == Recovered(c, emitted[i])
  {
    hide Read, EncodedAll, AllFit, Torn, Numbered, LastTermination, RecoveredAll;
    CompleteExactly(c, runId, emitted, k, torn);
    TerminationReached(c, emitted, WholeLines(c, emitted, k, torn), t);
  }

  lemma TerminationReached(c: Codec, emitted: seq<RunEvent>, n: nat, t: nat)
    requires n <= |emitted| && t < |emitted|
    requires forall i :: 0 <= i < |emitted| ==> (emitted[i].kind == TerminationEvent <==> i == t)
    requires LastTermination(RecoveredAll(c, emitted[..n])).Some?
    ensures t < n && forall i :: 0 <= i <= t ==> RecoveredAll(c, emitted[..n])[i] == Recovered(c, emitted[i])
  {
    hide LastTermination;
    var recovered := RecoveredAll(c, emitted[..n]);
    LastTerminationIsOne(recovered);
    var i :| 0 <= i < |recovered| && recovered[i].kind == TerminationEvent;
    assert recovered[i] == Recovered(c, emitted[i]);
  }
}
