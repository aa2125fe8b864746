/** The record of a run, turn by turn: what the model asked, what was executed, and the
    messages and events this leaves behind. */
module Turns {
  import opened Prelude
  import opened History
  import opened Evidence
  import opened Progress

  /** Writes a result envelope as a JSON object. */
  type Rendering = ToolResult -> string

  function Failure(code: string): ToolResult {
    ToolResult(false, code, OtherData, "")
  }

  function InterruptedResult(started: bool): ToolResult {
    ToolResult(false, if started then "TOOL_INTERRUPTED" else "BATCH_INTERRUPTED", OtherData,
               if started then "started" else "not started")
  }

  /** An interrupted call is told whether it was started: then it may have had an effect. */
  lemma InterruptedIsTold(started: bool)
    ensures !InterruptedResult(started).ok
    ensures InterruptedResult(true).code == "TOOL_INTERRUPTED" && InterruptedResult(false).code == "BATCH_INTERRUPTED"
    ensures InterruptedResult(true).detail == "started" && InterruptedResult(false).detail == "not started"
  {
  }

  // ----- the messages of one batch -----

  function ResultMessage(render: Rendering, call: ToolCall, result: ToolResult): Message {
    Tool(call.id, JsonObject(render(result)))
  }

  /** One result message for each of the first calls, in call order. */
  function ResultMessages(render: Rendering, calls: seq<ToolCall>, results: seq<ToolResult>): (ms: seq<Message>)
    requires |results| <= |calls|
    ensures |ms| == |results|
    ensures forall i :: 0 <= i < |ms| ==> ms[i] == ResultMessage(render, calls[i], results[i])
  {
    if results == [] then []
    else
      var last := |results| - 1;
      ResultMessages(render, calls, results[..last]) + [ResultMessage(render, calls[last], results[last])]
  }

  lemma OneMoreResult(render: Rendering, calls: seq<ToolCall>, results: seq<ToolResult>, result: ToolResult)
    requires |results| < |calls|
    ensures ResultMessages(render, calls, results + [result]) ==
            ResultMessages(render, calls, results) + [ResultMessage(render, calls[|results|], result)]
  {
    assert (results + [result])[..|results|] == results;
  }

  lemma CallIdsLast(calls: seq<ToolCall>, c: ToolCall)
    ensures CallIds(calls + [c]) == CallIds(calls) + multiset{c.id}
  {
    assert (calls + [c])[..|calls|] == calls;
  }

  lemma {:induction false} CallIdsConcat(a: seq<ToolCall>, b: seq<ToolCall>)
    ensures CallIds(a + b) == CallIds(a) + CallIds(b)
  {
    hide CallIds;
    if b == [] {
      NoCallIds(a, b);
    } else {
      var init, c := b[..|b| - 1], b[|b| - 1];
      assert a + b == (a + init) + [c] && b == init + [c];
      calc {
        CallIds(a + b);
        { CallIdsLast(a + init, c); }
        CallIds(a + init) + multiset{c.id};
        { CallIdsConcat(a, init); }
        (CallIds(a) + CallIds(init)) + multiset{c.id};
        { SumAssociates(CallIds(a), CallIds(init), multiset{c.id}); }
        CallIds(a) + (CallIds(init) + multiset{c.id});
        { CallIdsLast(init, c); }
        CallIds(a) + CallIds(b);
      }
    }
  }

  lemma NoCallIds(a: seq<ToolCall>, b: seq<ToolCall>)
    requires b == []
    ensures CallIds(a + b) == CallIds(a) + CallIds(b)
  {
    assert a + b == a;
  }

  lemma SumAssociates(a: multiset<string>, b: multiset<string>, c: multiset<string>)
    ensures (a + b) + c == a + (b + c)
  {
  }

  /** The calls still to be answered shrink from the front. */
  lemma CallIdsHead(calls: seq<ToolCall>, i: nat)
    requires i < |calls|
    ensures CallIds(calls[i..]) == multiset{calls[i].id} + CallIds(calls[i + 1..])
  {
    assert calls[i..] == [calls[i]] + calls[i + 1..];
    CallIdsConcat([calls[i]], calls[i + 1..]);
    CallIdsLast([], calls[i]);
    assert [] + [calls[i]] == [calls[i]];
  }

  // ----- what a batch did -----

  predicate FinishNotAlone(calls: seq<ToolCall>) {
    |calls| != 1 && exists i :: 0 <= i < |calls| && calls[i].name == FINISH_TASK_NAME
  }

  predicate DuplicateIds(calls: seq<ToolCall>) {
    exists i :: 0 <= i < |calls| && CallIds(calls)[calls[i].id] > 1
  }

  predicate SharesId(calls: seq<ToolCall>, i: nat)
    requires i < |calls|
  {
    exists j | 0 <= j < |calls| :: j != i && calls[j].id == calls[i].id
  }

  lemma {:induction false} IdsCounted(calls: seq<ToolCall>, id: string)
    ensures CallIds(calls)[id] > 0 <==> exists i :: 0 <= i < |calls| && calls[i].id == id
    ensures CallIds(calls)[id] > 1 <==> exists i, j :: 0 <= i < j < |calls| && calls[i].id == calls[j].id == id
  {
    if calls != [] {
      var init, last := calls[..|calls| - 1], calls[|calls| - 1];
      IdsCounted(init, id);
      assert CallIds(calls)[id] == CallIds(init)[id] + if last.id == id then 1 else 0;
      assert forall i :: 0 <= i < |init| ==> calls[i] == init[i];
      if i :| 0 <= i < |init| && init[i].id == id && last.id == id {
        assert calls[i].id == calls[|init|].id == id;
      }
    }
  }

  /** An identifier is given twice exactly when two calls share it. */
  lemma DuplicatesExactly(calls: seq<ToolCall>, i: nat)
    requires i < |calls|
    ensures CallIds(calls)[calls[i].id] > 1 <==> SharesId(calls, i)
    ensures DuplicateIds(calls) <==> exists k: nat | k < |calls| :: SharesId(calls, k)
  {
    forall k: nat | k < |calls| ensures CallIds(calls)[calls[k].id] > 1 <==> SharesId(calls, k) {
      IdsCounted(calls, calls[k].id);
      if SharesId(calls, k) {
        var j :| 0 <= j < |calls| && j != k && calls[j].id == calls[k].id;
        assert j < k || k < j;
      }
    }
  }

  /** What a call is told when finish_task came with other calls. */
  function FinishRejection(call: ToolCall): ToolResult {
    Failure(if call.name == FINISH_TASK_NAME then "FINISH_TASK_MUST_BE_SOLE_CALL" else "BATCH_REJECTED")
  }

  /** A finish request with companions is told to come alone, its companions that they were
      rejected with it. */
  predicate ToldToComeAlone(call: ToolCall, result: ToolResult) {
    && !result.ok
    && result.code == (if call.name == "finish_task" then "FINISH_TASK_MUST_BE_SOLE_CALL" else "BATCH_REJECTED")
  }

  /** Calls passed to their tools, and the events recorded, by one batch. */
  datatype Trail = Trail(executed: seq<Effect>, ran: seq<Execution>)

  const NOTHING: Trail := Trail([], [])

  ghost predicate AllRefused(results: seq<ToolResult>) {
    forall i :: 0 <= i < |results| ==> !results[i].ok
  }

  /** Nothing was executed, and every call was told so by a failure. */
  ghost predicate Untouched(results: seq<ToolResult>, trail: Trail) {
    trail == NOTHING && AllRefused(results)
  }

  /** A finish request on its own: one event, no tool. */
  ghost predicate FinishHandled(calls: seq<ToolCall>, trail: Trail) {
    |calls| == 1 && calls[0].name == FINISH_TASK_NAME && trail == Trail([], [FinishAsked])
  }

  /** A prefix of the calls was executed, in order, and each result is what the tool
      answered; an interrupted one has no event, and every call after it is told, as far
      as it is told anything, that it was not started. */
  ghost predicate ExecutedPrefix(calls: seq<ToolCall>, results: seq<ToolResult>, trail: Trail) {
    && |trail.ran| <= |trail.executed| <= |trail.ran| + 1 && |trail.executed| <= |calls|
    && |trail.ran| <= |results| <= |calls|
    && (forall i :: 0 <= i < |trail.executed| ==> trail.executed[i].call == calls[i])
    && (forall i :: 0 <= i < |trail.ran| ==> trail.executed[i].answer == Some(results[i]))
    && (forall i :: 0 <= i < |trail.ran| ==> trail.ran[i] == Ran(calls[i].name, results[i]))
    && (forall i :: |trail.ran| <= i < |results| ==> results[i] == InterruptedResult(i < |trail.executed|))
  }

  /** What may have happened to the calls of one response, the first of which have results. */
  ghost predicate Conducted(calls: seq<ToolCall>, results: seq<ToolResult>, trail: Trail) {
    && |results| <= |calls|
    && (FinishNotAlone(calls) || DuplicateIds(calls) ==> Untouched(results, trail))
    && (Untouched(results, trail) || FinishHandled(calls, trail) || ExecutedPrefix(calls, results, trail))
  }

  /** Whether a successful call of a writing tool is among the executed ones. */
  ghost predicate Wrote(writes: string -> bool, calls: seq<ToolCall>, results: seq<ToolResult>, trail: Trail) {
    exists i :: 0 <= i < |trail.executed| && i < |results| && i < |calls| && results[i].ok && writes(calls[i].name)
  }

  // ----- turns -----

  datatype Turn = Turn(
    response: ModelResponse, results: seq<ToolResult>, trail: Trail, modified: bool, note: Option<string>)

  /** Every call of a turn has its result. */
  ghost predicate TurnConducted(t: Turn) {
    |t.results| == |t.response.calls| && Conducted(t.response.calls, t.results, t.trail)
  }

  /** A response whose turn was cut off by an exception, and how far its calls got. */
  datatype Cut = Cut(response: ModelResponse, results: seq<ToolResult>, trail: Trail)

  /** Every turn says rightly whether it modified the workspace. */
  ghost predicate ModificationsTold(writes: string -> bool, turns: seq<Turn>) {
    forall i :: 0 <= i < |turns| ==>
                  turns[i].modified == Wrote(writes, turns[i].response.calls, turns[i].results, turns[i].trail)
  }

  lemma OneMoreTold(writes: string -> bool, turns: seq<Turn>, t: Turn)
    requires ModificationsTold(writes, turns) && t.modified == Wrote(writes, t.response.calls, t.results, t.trail)
    ensures ModificationsTold(writes, turns + [t])
  {
    hide Wrote;
  }

  function TurnMessages(render: Rendering, t: Turn): seq<Message>
    requires |t.results| == |t.response.calls|
  {
    [Assistant(t.response)] + ResultMessages(render, t.response.calls, t.results) +
    if t.note.Some? then [User(t.note.value)] else []
  }

  ghost predicate AllConducted(turns: seq<Turn>) {
    forall i :: 0 <= i < |turns| ==> TurnConducted(turns[i])
  }

  function Transcript(render: Rendering, turns: seq<Turn>): seq<Message>
    requires AllConducted(turns)
  {
    if turns == [] then []
    else Transcript(render, turns[..|turns| - 1]) + TurnMessages(render, turns[|turns| - 1])
  }

  function EventsOf(turns: seq<Turn>): seq<Execution> {
    if turns == [] then [] else EventsOf(turns[..|turns| - 1]) + turns[|turns| - 1].trail.ran
  }

  function ExecutedIn(turns: seq<Turn>): seq<Effect> {
    if turns == [] then [] else ExecutedIn(turns[..|turns| - 1]) + turns[|turns| - 1].trail.executed
  }

  /** The turns that carried tool calls. */
  function BatchesOf(turns: seq<Turn>): seq<Batch> {
    if turns == [] then []
    else
      var t := turns[|turns| - 1];
      BatchesOf(turns[..|turns| - 1]) +
      if t.response.calls == [] then [] else [Batch(t.response.calls, t.results, t.modified)]
  }

  function CallCount(turns: seq<Turn>): nat {
    if turns == [] then 0 else CallCount(turns[..|turns| - 1]) + |turns[|turns| - 1].response.calls|
  }

  function Failures(results: seq<ToolResult>): nat {
    if results == [] then 0
    else Failures(results[..|results| - 1]) + if results[|results| - 1].ok then 0 else 1
  }

  function ErrorCount(turns: seq<Turn>): nat {
    if turns == [] then 0 else ErrorCount(turns[..|turns| - 1]) + Failures(turns[|turns| - 1].results)
  }

  /** Turns without a tool call. */
  function SilentTurns(turns: seq<Turn>): nat {
    if turns == [] then 0
    else SilentTurns(turns[..|turns| - 1]) + if turns[|turns| - 1].response.calls == [] then 1 else 0
  }

  lemma OneMoreTurn(render: Rendering, turns: seq<Turn>, t: Turn)
    requires AllConducted(turns) && TurnConducted(t)
    ensures AllConducted(turns + [t])
    ensures Transcript(render, turns + [t]) == Transcript(render, turns) + TurnMessages(render, t)
    ensures EventsOf(turns + [t]) == EventsOf(turns) + t.trail.ran
    ensures ExecutedIn(turns + [t]) == ExecutedIn(turns) + t.trail.executed
    ensures BatchesOf(turns + [t]) ==
            BatchesOf(turns) + if t.response.calls == [] then [] else [Batch(t.response.calls, t.results, t.modified)]
    ensures CallCount(turns + [t]) == CallCount(turns) + |t.response.calls|
    ensures ErrorCount(turns + [t]) == ErrorCount(turns) + Failures(t.results)
    ensures SilentTurns(turns + [t]) == SilentTurns(turns) + if t.response.calls == [] then 1 else 0
  {
    hide TurnConducted, TurnMessages, Failures;
    assert (turns + [t])[..|turns|] == turns;
    assert (turns + [t])[|turns|] == t;
    forall i | 0 <= i < |turns + [t]| ensures TurnConducted((turns + [t])[i]) {
      assert i < |turns| ==> (turns + [t])[i] == turns[i];
    }
  }

  lemma OneMoreFailure(results: seq<ToolResult>, result: ToolResult)
    ensures Failures(results + [result]) == Failures(results) + if result.ok then 0 else 1
  {
    assert (results + [result])[..|results|] == results;
  }

  lemma OneMoreEvent(normalize: PathRule, log: seq<Execution>, x: Execution)
    ensures FactsOf(normalize, log + [x]) == Record(normalize, FactsOf(normalize, log), x)
  {
    assert (log + [x])[..|log|] == log;
  }
}
