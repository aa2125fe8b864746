/** The bounded loop that drives model requests and tool batches. */
module AgentLoop {
  import opened Prelude
  import opened History
  import opened Context
  import opened Evidence
  import opened Progress
  import opened Turns
  import opened Host
  import EventPayload

  const DEFAULT_MAX_API_ATTEMPTS: nat := 3
  const PROTOCOL_REPAIR_MESSAGE: string := "PROGRAM_PROTOCOL_REPAIR"
  const NO_PROGRESS_MESSAGE: string := "PROGRAM_NO_PROGRESS"
  const CONTEXT_BUDGET_CODE: string := "CONTEXT_BUDGET_EXCEEDED"
  const OUTPUT_TRUNCATED_MESSAGE: string := "PROGRAM_OUTPUT_TRUNCATED"

  /** What the caller fixes before a run. */
  datatype Settings = Settings(
    maxSteps: nat, maxSeconds: real, maxConsecutiveFailures: nat, maxApiAttempts: nat)
  {
    predicate Valid() {
      maxSteps >= 1 && maxSeconds > 0.0 && maxConsecutiveFailures >= 1 && 1 <= maxApiAttempts <= DEFAULT_MAX_API_ATTEMPTS
    }
  }

  /** What the summary in a view is made of. */
  datatype Summary = Summary(
    facts: Facts, apiAttempts: nat, apiRetries: nat, consecutiveFailures: nat, noProgress: nat,
    errorCodes: seq<string>)

  /** Pure pieces of the runtime the loop is built from. */
  datatype Parts = Parts(
    render: Rendering,
    fingerprint: Fingerprint,
    normalize: PathRule,
    modifiesWorkspace: string -> bool,
    finishDetail: (FinishRequest, Facts) -> string,
    requestBytes: seq<Message> -> nat,
    summarize: (Summary, nat) -> string,
    texts: EventPayload.TextRules)

  datatype BatchOutcome = BatchOutcome(
    results: seq<ToolResult>, finish: Option<FinishOutcome>, modified: bool, interrupted: bool)

  /** Why a run ended, read off its turns. */
  ghost predicate RunEnds(settings: Settings, parts: Parts, turns: seq<Turn>,
                          reason: TerminationReason, completion: Option<Status>, blockedReason: Option<string>)
  {
    && (reason != InternalError ==> (completion.Some? <==> reason == FinishTask))
    && match reason
       case FinishTask =>
         && turns != []
         && var t := turns[|turns| - 1];
         && FinishHandled(t.response.calls, t.trail) && |t.results| == 1 && t.results[0].ok
         && completion == Some(Decide(blockedReason, FactsOf(parts.normalize, EventsOf(turns))))
       case ModelStopped => turns != [] && turns[|turns| - 1].response.calls == [] && SilentTurns(turns) == 2
       case MaxSteps => |turns| == settings.maxSteps
       case MaxConsecutiveFailures => LongestFailedSuffix(BatchesOf(turns), settings.maxConsecutiveFailures)
       case NoProgress =>
         LongestRepeatedSuffix(parts.fingerprint, BatchesOf(turns), NO_PROGRESS_TERMINATION_REPEAT)
       case _ => true
  }

  /** The summary of the run so far that a view carries for a number of removed groups. */
  function SummaryOf(parts: Parts, summary: Summary): nat -> string {
    (removed: nat) => parts.summarize(summary, removed)
  }

  /** The note the model gets after a batch: that it makes no progress, that its output was
      cut, both, or nothing. */
  predicate NoteTold(note: Option<string>, repeats: nat, truncated: bool) {
    note ==
    if repeats == 2 && truncated then Some(NO_PROGRESS_MESSAGE + "\n\n" + OUTPUT_TRUNCATED_MESSAGE)
    else if repeats == 2 then Some(NO_PROGRESS_MESSAGE)
    else if truncated then Some(OUTPUT_TRUNCATED_MESSAGE)
    else None
  }

  /** The event that announces a call can be made without raising. */
  predicate Announceable(parts: Parts, call: ToolCall) {
    EventPayload.CallPayload(parts.texts, EventPayload.CodePoints(call.id), call.name,
                             EventPayload.CodePoints(call.arguments)).Some?
  }

  predicate AllAnnounceable(parts: Parts, calls: seq<ToolCall>) {
    forall i | 0 <= i < |calls| :: Announceable(parts, calls[i])
  }

  ghost predicate TurnsAnnounced(parts: Parts, turns: seq<Turn>) {
    forall i :: 0 <= i < |turns| ==> AllAnnounceable(parts, turns[i].response.calls)
  }

  /** One request: how many turns came before it, the summary and the budget its view was
      made with, and the interactions left out. */
  datatype Asking = Asking(turn: nat, summary: Summary, budget: int, target: int, removed: nat)

  /** The same request was sent any number of times more, and all but the last failed in
      a way that may pass. */
  ghost predicate Repeats(asked0: seq<Asking>, exchanges0: seq<Exchange>, asked: seq<Asking>, exchanges: seq<Exchange>,
                          a: Asking, view: seq<Message>)
  {
    && |asked0| == |exchanges0| <= |asked| == |exchanges|
    && asked[..|asked0|] == asked0 && exchanges[..|asked0|] == exchanges0
    && (forall k :: |asked0| <= k < |asked| ==> asked[k] == a && exchanges[k].request == view)
    && (forall k :: |asked0| <= k < |asked| - 1 ==> Transient(exchanges[k].reply))
  }

  ghost predicate AllTransient(exchanges: seq<Exchange>, since: nat) {
    forall k :: since <= k < |exchanges| ==> Transient(exchanges[k].reply)
  }

  /** The error codes after these exchanges: one more for each failure, named by its category. */
  function CodesOf(codes: seq<string>, exchanges: seq<Exchange>, since: nat): seq<string> {
    if |exchanges| <= since then codes
    else
      var earlier := CodesOf(codes, exchanges[..|exchanges| - 1], since);
      match exchanges[|exchanges| - 1].reply
      case RequestFailed(category, _, _) => WithErrorCode(earlier, "LLM_" + category)
      case OtherFailure => WithErrorCode(earlier, "LLM_PERMANENT")
      case _ => earlier
  }

  lemma CodesNext(codes: seq<string>, exchanges: seq<Exchange>, e: Exchange, since: nat)
    requires since <= |exchanges|
    ensures CodesOf(codes, exchanges, |exchanges|) == codes
    ensures CodesOf(codes, exchanges + [e], since) ==
            if e.reply.RequestFailed? then WithErrorCode(CodesOf(codes, exchanges, since), "LLM_" + e.reply.category)
            else if e.reply.OtherFailure? then WithErrorCode(CodesOf(codes, exchanges, since), "LLM_PERMANENT")
            else CodesOf(codes, exchanges, since)
  {
    hide WithErrorCode;
    assert (exchanges + [e])[..|exchanges|] == exchanges;
  }

  lemma NothingRepeated(asked: seq<Asking>, exchanges: seq<Exchange>, a: Asking, view: seq<Message>)
    requires |asked| == |exchanges|
    ensures Repeats(asked, exchanges, asked, exchanges, a, view) && AllTransient(exchanges, |asked|)
    ensures forall codes :: CodesOf(codes, exchanges, |exchanges|) == codes
  {
  }

  lemma RepeatedAlike(asked0: seq<Asking>, exchanges0: seq<Exchange>, asked: seq<Asking>, exchanges: seq<Exchange>,
                      a: Asking, view: seq<Message>)
    requires Repeats(asked0, exchanges0, asked, exchanges, a, view)
    ensures |asked| == |exchanges|
  {
  }

  lemma RepeatsOnce(asked0: seq<Asking>, exchanges0: seq<Exchange>, asked: seq<Asking>, exchanges: seq<Exchange>,
                    a: Asking, view: seq<Message>, reply: Reply)
    requires Repeats(asked0, exchanges0, asked, exchanges, a, view) && AllTransient(exchanges, |asked0|)
    ensures Repeats(asked0, exchanges0, asked + [a], exchanges + [Exchange(view, reply)], a, view)
    ensures Transient(reply) ==> AllTransient(exchanges + [Exchange(view, reply)], |asked0|)
  {
  }

  /** The responses a run has on record. */
  function Responses(turns: seq<Turn>): seq<ModelResponse> {
    seq(|turns|, i requires 0 <= i < |turns| => turns[i].response)
  }

  /** Request `k` is for the same response as the one before it, or for the next one. */
  predicate InTurn(asked: seq<Asking>, k: nat)
    requires k < |asked|
  {
    if k == 0 then asked[k].turn == 0 else asked[k - 1].turn <= asked[k].turn <= asked[k - 1].turn + 1
  }

  /** A request is repeated as it is after a failure that may pass, and only then; else
      its reply is the response recorded next, if one is. */
  predicate Heeded(responses: seq<ModelResponse>, asked: seq<Asking>, exchanges: seq<Exchange>, k: nat)
    requires k < |asked| == |exchanges|
  {
    if k + 1 < |asked| && asked[k + 1].turn == asked[k].turn
    then Transient(exchanges[k].reply) && asked[k + 1] == asked[k] && exchanges[k + 1].request == exchanges[k].request
    else asked[k].turn < |responses| ==> exchanges[k].reply == Reply.Answered(responses[asked[k].turn])
  }

  /** Every response on record is the reply to the last request made for it. */
  ghost predicate Heard(responses: seq<ModelResponse>, asked: seq<Asking>, exchanges: seq<Exchange>) {
    && |asked| == |exchanges|
    && (forall k :: 0 <= k < |asked| ==> InTurn(asked, k) && Heeded(responses, asked, exchanges, k))
    && (responses != [] ==> asked != [] && asked[|asked| - 1].turn >= |responses| - 1)
  }

  /** No request was made for a response that is not on record. */
  predicate CaughtUp(count: nat, asked: seq<Asking>) {
    asked == [] || asked[|asked| - 1].turn == count - 1
  }

  lemma HeardMore(responses: seq<ModelResponse>, asked0: seq<Asking>, exchanges0: seq<Exchange>,
                  asked: seq<Asking>, exchanges: seq<Exchange>, a: Asking, view: seq<Message>)
    requires Heard(responses, asked0, exchanges0) && CaughtUp(|responses|, asked0)
    requires Repeats(asked0, exchanges0, asked, exchanges, a, view) && a.turn == |responses|
    ensures Heard(responses, asked, exchanges)
    ensures |asked| > |asked0| ==> asked[|asked| - 1] == a
  {
    forall k | 0 <= k < |asked| ensures InTurn(asked, k) && Heeded(responses, asked, exchanges, k) {
      if k < |asked0| {
        assert asked[k] == asked0[k] && exchanges[k] == exchanges0[k];
        assert InTurn(asked0, k) && Heeded(responses, asked0, exchanges0, k);
      }
      if k > 0 && k - 1 < |asked0| {
        assert asked[k - 1] == asked0[k - 1];
      }
      if k + 1 < |asked0| {
        assert asked[k + 1] == asked0[k + 1] && exchanges[k + 1] == exchanges0[k + 1];
      }
    }
  }

  lemma HeardResponse(responses: seq<ModelResponse>, response: ModelResponse, asked: seq<Asking>, exchanges: seq<Exchange>)
    requires Heard(responses, asked, exchanges) && asked != [] && asked[|asked| - 1].turn == |responses|
    requires exchanges[|asked| - 1].reply == Reply.Answered(response)
    ensures Heard(responses + [response], asked, exchanges) && CaughtUp(|responses| + 1, asked)
  {
    forall k | 0 <= k < |asked| ensures Heeded(responses + [response], asked, exchanges, k) {
      assert Heeded(responses, asked, exchanges, k);
      AskedInOrder(asked, k, |asked| - 1);
      if asked[k].turn == |responses| && k < |asked| - 1 {
        assert InTurn(asked, k + 1);
        AskedInOrder(asked, k + 1, |asked| - 1);
      }
    }
  }

  lemma {:induction false} AskedInOrder(asked: seq<Asking>, j: nat, k: nat)
    requires j <= k < |asked| && forall i :: 0 <= i < |asked| ==> InTurn(asked, i)
    ensures asked[j].turn <= asked[k].turn
  {
    if j < k {
      AskedInOrder(asked, j, k - 1);
      assert InTurn(asked, k);
    }
  }

  method OpenHistory(prompt: string, task: string) returns (h: MessageHistory)
    ensures fresh(h) && h.Valid() && h.messages == [System(prompt), User(task)] && h.pending == multiset{}
  {
    hide Replay;
    h := new MessageHistory();
    var e1 := h.AddSystem(prompt);
    var e2 := h.AddUser(task);
    assert e1 == None && e2 == None;
  }

  class AgentLoop {
    const settings: Settings
    const parts: Parts
    const host: Host
    const history: MessageHistory
    const state: RunState
    const tracker: VerificationTracker
    const context: ContextManager
    const progress: NoProgressTracker

    const prompt: string
    const task: string

    /** Every event recorded so far, and every turn taken. */
    ghost var log: seq<Execution>
    ghost var turns: seq<Turn>

    /** The turn an exception cut off, if one did. */
    ghost var cut: Option<Cut>

    /** The summary the newest view was made with, and every request made so far. */
    ghost var built: Summary
    ghost var asked: seq<Asking>

    /** Open a run: the history holds the system prompt and the task. */
    constructor (settings: Settings, parts: Parts, host: Host, context: ContextManager, prompt: string, task: string)
      requires settings.Valid()
      requires host.waited == host.slept == 0.0 && host.exchanges == [] && host.executed == [] && !host.stopAsked
      requires host.raised == None && !host.struck
      modifies host`now
      ensures this.settings == settings && this.parts == parts && this.host == host && this.context == context
      ensures this.prompt == prompt && this.task == task && turns == []
      ensures fresh(history) && fresh(state) && fresh(progress)
      ensures Wired() && Ready() && Conversed() && CaughtUp(0, asked)
    {
      hide *;
      this.settings, this.parts, this.host, this.context := settings, parts, host, context;
      var start := host.Clock();
      var h := OpenHistory(prompt, task);
      var st := new RunState(start);
      this.history, this.state := h, st;
      this.tracker := new VerificationTracker(st, parts.normalize);
      this.progress := new NoProgressTracker(parts.fingerprint);
      this.prompt, this.task, this.log, this.turns := prompt, task, [], [];
      this.cut, this.built, this.asked := None, Summary(NO_FACTS, 0, 0, 0, 0, []), [];
      new;
      ReadyAtStart();
      NothingAsked();
    }

    lemma NothingAsked()
      requires turns == [] && cut == None && asked == [] && host.exchanges == []
      ensures Conversed() && CaughtUp(0, asked)
    {
    }

    lemma ReadyAtStart()
      requires settings.Valid() && tracker.state == state && tracker.normalize == parts.normalize
      requires progress.fp == parts.fingerprint && progress.Valid() && progress.seen == []
      requires host.waited == host.slept == 0.0 && host.exchanges == [] && host.executed == [] && !host.stopAsked && host.now >= state.startedAt
      requires history.Valid() && history.messages == [System(prompt), User(task)] && history.pending == multiset{}
      requires state.Evidence() == NO_FACTS && log == [] && turns == []
      requires state.modelCalls == state.toolCalls == state.toolErrors == state.apiAttempts == state.apiRetries == 0
      requires state.protocolRepairs == state.consecutiveFailures == state.noProgress == 0
      requires state.termination == None && state.completion == None && cut == None && host.raised == None
      ensures Wired() && Ready()
    {
      hide Replay;
      assert [System(prompt), User(task)] + [] == [System(prompt), User(task)];
    }

    ghost predicate Wired() {
      && settings.Valid()
      && tracker.state == state && tracker.normalize == parts.normalize && progress.fp == parts.fingerprint
    }

    // ----- what is asked of the model -----

    /** The history after the given turns. */
    function Told(earlier: seq<Turn>): seq<Message>
      requires AllConducted(earlier)
    {
      [System(prompt), User(task)] + Transcript(parts.render, earlier)
    }

    /** What a request carries: the history of the turns before it, shown with a summary of
        the evidence and the failures at that moment, and with no more interactions left out than the budget
        of that moment asks for. */
    ghost predicate AskedRightly(turns: seq<Turn>, a: Asking, request: seq<Message>) {
      && a.turn <= |turns| && AllConducted(turns[..a.turn])
      && a.summary.facts == FactsOf(parts.normalize, EventsOf(turns[..a.turn]))
      && LongestFailedSuffix(BatchesOf(turns[..a.turn]), a.summary.consecutiveFailures)
      && Shows(Told(turns[..a.turn]), parts.summarize(a.summary, a.removed), a.removed, request)
      && Complete(request)
      && FitsBest(Told(turns[..a.turn]), a, request)
    }

    ghost predicate FitsBest(told: seq<Message>, a: Asking, request: seq<Message>)
      requires |told| >= 2
    {
      var sizes := ViewSizes(told, parts.requestBytes, SummaryOf(parts, a.summary));
      && 1 <= a.budget <= context.budgetBytes && WholePart(a.target, a.budget, context.targetRatio)
      && a.removed < |sizes| && BestCount(a.budget, a.target, context.MaxRemoved(|sizes| - 1), sizes, a.removed)
      && parts.requestBytes(request) == sizes[a.removed] <= a.budget
    }

    /** The responses on record, with that of a turn that was cut off. */
    ghost function Said(): seq<ModelResponse>
      reads this`turns, this`cut
    {
      Responses(turns) + if cut.Some? then [cut.value.response] else []
    }

    /** Every request carried what it should, and every response on record is a reply. */
    ghost predicate Conversed()
      reads this`turns, this`cut, this`asked, host`exchanges
    {
      && Heard(Said(), asked, host.exchanges)
      && forall k :: 0 <= k < |asked| ==> AskedRightly(turns, asked[k], host.exchanges[k].request)
    }

    /** A response was received for the next turn, and is not on record yet. */
    ghost predicate Awaited(turns: seq<Turn>, response: ModelResponse, asked: seq<Asking>, exchanges: seq<Exchange>) {
      && Heard(Responses(turns) + [response], asked, exchanges)
      && |asked| == |exchanges| && CaughtUp(|turns| + 1, asked)
      && forall k :: 0 <= k < |asked| ==> AskedRightly(turns, asked[k], exchanges[k].request)
    }

    /** A turn with this response was put on record, or cut off. */
    ghost predicate Grown(before: seq<Turn>, response: ModelResponse)
      reads this`turns, this`cut, host`raised
    {
      if host.raised.Some? then turns == before && cut.Some? && cut.value.response == response
      else cut == None && |turns| == |before| + 1 && turns[..|before|] == before && turns[|before|].response == response
    }

    lemma SameTurns(turns: seq<Turn>, more: seq<Turn>, a: Asking, request: seq<Message>)
      requires AskedRightly(turns, a, request) && |turns| <= |more| && more[..|turns|] == turns
      ensures AskedRightly(more, a, request)
    {
      hide Shows, Complete, FitsBest, Transcript, AllConducted, FactsOf, EventsOf, BatchesOf, LongestFailedSuffix;
      assert more[..a.turn] == turns[..a.turn];
    }

    lemma TurnHeard(before: seq<Turn>, response: ModelResponse)
      requires Awaited(before, response, asked, host.exchanges) && Grown(before, response)
      ensures Conversed()
      ensures host.raised == None ==> CaughtUp(|turns|, asked) && |turns| == |before| + 1
    {
      hide Heard, AskedRightly;
      assert Said() == Responses(before) + [response];
      forall k | 0 <= k < |asked| ensures AskedRightly(turns, asked[k], host.exchanges[k].request) {
        assert turns[..|before|] == before;
        SameTurns(before, turns, asked[k], host.exchanges[k].request);
      }
    }

    /** Sending a view any number of times keeps the record of requests right. */
    lemma SentAgain(asked0: seq<Asking>, exchanges0: seq<Exchange>, a: Asking, view: seq<Message>)
      requires Heard(Responses(turns), asked0, exchanges0) && CaughtUp(|turns|, asked0) && cut == None
      requires forall k :: 0 <= k < |asked0| ==> AskedRightly(turns, asked0[k], exchanges0[k].request)
      requires AskedRightly(turns, a, view) && a.turn == |turns|
      requires Repeats(asked0, exchanges0, asked, host.exchanges, a, view)
      ensures Conversed()
      ensures forall response :: |asked| > |asked0| && host.exchanges[|asked| - 1].reply == Reply.Answered(response) ==>
                Awaited(turns, response, asked, host.exchanges)
    {
      hide Heard, AskedRightly;
      assert Said() == Responses(turns);
      HeardMore(Responses(turns), asked0, exchanges0, asked, host.exchanges, a, view);
      forall k | 0 <= k < |asked| ensures AskedRightly(turns, asked[k], host.exchanges[k].request) {
        if k < |asked0| {
          assert asked[k] == asked0[k] && host.exchanges[k] == exchanges0[k];
        }
      }
      forall response | |asked| > |asked0| && host.exchanges[|asked| - 1].reply == Reply.Answered(response)
        ensures Awaited(turns, response, asked, host.exchanges)
      {
        HeardResponse(Responses(turns), response, asked, host.exchanges);
      }
    }

    // ----- time -----

    /** Sleeping and waiting are part of the time that passed, and the sleeps stay
        within the limit. */
    ghost predicate Clocked()
      reads host`now, host`slept, host`waited, state`startedAt
    {
      && 0.0 <= host.slept && 0.0 <= host.waited
      && host.slept + host.waited <= host.now - state.startedAt
      && host.slept < settings.maxSeconds
    }

    /** The time that passed was just measured, without the time a person took. */
    ghost predicate Measured()
      reads host`now, host`waited, state`startedAt, state`elapsed
    {
      state.elapsed == RealMax(0.0, host.now - state.startedAt - host.waited)
    }

    method RemainingSeconds() returns (remaining: real)
      modifies host`now, state`elapsed
      ensures host.now >= old(host.now) && (old(Clocked()) ==> Clocked())
      ensures Measured()
      ensures remaining == RealMax(0.0, settings.maxSeconds - state.elapsed)
      ensures remaining <= 0.0 <==> state.elapsed >= settings.maxSeconds
    {
      var t := host.Clock();
      state.elapsed := RealMax(0.0, t - state.startedAt - host.waited);
      remaining := RealMax(0.0, settings.maxSeconds - state.elapsed);
    }

    // ----- the model request -----

    /** The last request failed in a way that may pass, and the delay before the next
        attempt did not fit the time left. */
    ghost predicate NoTimeToRetry()
      reads host`exchanges, state`elapsed
    {
      && host.exchanges != []
      && var reply := host.exchanges[|host.exchanges| - 1].reply;
         Transient(reply) &&
         exists attempts: nat, delay: real ::
           && attempts < settings.maxApiAttempts && PossibleDelay(reply.retryAfter, attempts, delay)
           && state.elapsed + delay >= settings.maxSeconds
    }

    /** The last request failed for good, or the attempts for this response are used up. */
    ghost predicate Surrendered()
      reads this`turns, this`asked, host`exchanges
    {
      && host.exchanges != []
      && match host.exchanges[|host.exchanges| - 1].reply
         case OtherFailure => true
         case RequestFailed(_, retryable, _) =>
           !retryable ||
           (1 <= settings.maxApiAttempts <= |asked| && asked[|asked| - settings.maxApiAttempts].turn == |turns|)
         case _ => false
    }

    /** Sleep before a retry, unless the time left is too short for it. */
    method BackOff(retryAfter: Option<real>, attempts: nat) returns (waited: bool, ghost delay: real)
      requires Clocked() && attempts >= 1 && host.raised == None
      modifies host`now, host`slept, host`raised, host`struck, state`elapsed, state`apiRetries
      ensures Clocked() && PossibleDelay(retryAfter, attempts, delay)
      ensures waited <==> state.elapsed + delay < settings.maxSeconds
      ensures state.apiRetries == old(state.apiRetries) + if waited then 1 else 0
      ensures host.raised in {None, Some(RetryEvent)} && (host.raised.Some? ==> waited && host.struck)
      ensures host.slept == old(host.slept) + if waited && host.raised == None then delay else 0.0
    {
      hide RetryDelay;
      var random := host.RandomValue();
      var wanted := RetryDelay(retryAfter, attempts, random);
      RetryDelayBounds(retryAfter, attempts, random);
      delay := wanted;
      var remaining := RemainingSeconds();
      if wanted >= remaining {
        return false, wanted;
      }
      state.apiRetries := state.apiRetries + 1;
      waited := true;
      host.Take(RetryEvent, false);
      if host.raised == None {
        host.Sleep(wanted);
      }
    }

    /** One counted attempt, whose failure is recorded. */
    method Attempt(view: seq<Message>, ghost a: Asking, ghost asked0: seq<Asking>, ghost exchanges0: seq<Exchange>,
                   ghost codes0: seq<string>)
      returns (reply: Reply)
      requires state.errorCodes == CodesOf(codes0, host.exchanges, |exchanges0|) && |exchanges0| <= |host.exchanges|
      requires Clocked() && Complete(view) && host.raised == None && state.elapsed < settings.maxSeconds
      requires Repeats(asked0, exchanges0, asked, host.exchanges, a, view) && AllTransient(host.exchanges, |asked0|)
      modifies this`asked, host`now, host`exchanges, host`stopAsked, host`raised, host`struck, state`apiAttempts, state`errorCodes
      ensures state.errorCodes == CodesOf(codes0, host.exchanges, |exchanges0|)
      ensures host.raised == (if reply.RequestRaised? then Some(Requesting) else None) && (host.raised.Some? ==> host.struck)
      ensures Clocked()
      ensures state.apiAttempts == old(state.apiAttempts) + 1
      ensures |asked| == |host.exchanges| == |old(host.exchanges)| + 1 && host.exchanges[|asked| - 1].reply == reply
      ensures Repeats(asked0, exchanges0, asked, host.exchanges, a, view)
      ensures Transient(reply) ==> AllTransient(host.exchanges, |asked0|)
      ensures host.stopAsked == (old(host.stopAsked) || reply.RequestInterrupted?)
    {
      hide Complete, Repeats, AllTransient, CodesOf, WithErrorCode;
      state.apiAttempts := state.apiAttempts + 1;
      RepeatedAlike(asked0, exchanges0, asked, host.exchanges, a, view);
      reply := host.Request(view);
      RepeatsOnce(asked0, exchanges0, asked, old(host.exchanges), a, view, reply);
      CodesNext(codes0, old(host.exchanges), Exchange(view, reply), |exchanges0|);
      asked := asked + [a];
      if reply.RequestFailed? {
        state.RecordErrorCode("LLM_" + reply.category);
      } else if reply.OtherFailure? {
        state.RecordErrorCode("LLM_PERMANENT");
      }
    }

    /** Ask the model, retrying transient failures a bounded number of times. */
    method RequestModel(view: seq<Message>, ghost a: Asking) returns (r: Option<ModelResponse>)
      requires Wired() && Clocked() && Complete(view) && state.termination == None && !host.stopAsked
      requires host.raised == None && |asked| == |host.exchanges| && a.turn == |turns|
      modifies this`asked, host`now, host`slept, host`exchanges, host`stopAsked, host`raised, host`struck
      modifies state`elapsed, state`apiAttempts, state`apiRetries, state`errorCodes, state`termination
      ensures Clocked()
      ensures Repeats(old(asked), old(host.exchanges), asked, host.exchanges, a, view)
      ensures state.errorCodes == CodesOf(old(state.errorCodes), host.exchanges, |old(host.exchanges)|)
      ensures r.Some? <==> state.termination == None && host.raised == None
      ensures r.Some? ==> |asked| > |old(asked)| && host.exchanges[|asked| - 1].reply == Reply.Answered(r.value)
      ensures host.raised in {None, Some(Requesting), Some(RetryEvent)}
      ensures host.raised.Some? ==> state.termination == None && host.struck
      ensures state.termination in {None, Some(MaxTime), Some(ApiError), Some(Interrupted)}
      ensures host.stopAsked <==> state.termination == Some(Interrupted)
      ensures state.termination == Some(MaxTime) ==> state.elapsed >= settings.maxSeconds || NoTimeToRetry()
      ensures state.termination == Some(ApiError) ==> Surrendered()
      ensures var attempts, retries := state.apiAttempts - old(state.apiAttempts), state.apiRetries - old(state.apiRetries);
              && 0 <= attempts <= settings.maxApiAttempts && attempts == |host.exchanges| - |old(host.exchanges)|
              && 0 <= retries <= attempts && (r.Some? ==> retries == attempts - 1)
    {
      hide *;
      SettingsHold();
      var attempts := 0;
      NothingRepeated(asked, host.exchanges, a, view);
      while attempts < settings.maxApiAttempts
        invariant attempts <= settings.maxApiAttempts
        invariant Clocked() && state.termination == None && !host.stopAsked && host.raised == None
        invariant |asked| == |host.exchanges| == |old(asked)| + attempts
        invariant Repeats(old(asked), old(host.exchanges), asked, host.exchanges, a, view)
        invariant AllTransient(host.exchanges, |old(asked)|)
        invariant state.errorCodes == CodesOf(old(state.errorCodes), host.exchanges, |old(asked)|)
        invariant state.apiAttempts == old(state.apiAttempts) + attempts
        invariant state.apiRetries == old(state.apiRetries) + attempts
      {
        var left := RemainingSeconds();
        if left <= 0.0 {
          state.termination := Some(MaxTime);
          return None;
        }
        attempts := attempts + 1;
        var reply := Attempt(view, a, old(asked), old(host.exchanges), old(state.errorCodes));
        match reply
        case Answered(response) =>
          return Some(response);
        case RequestFailed(_, retryable, _) =>
          if !retryable || attempts >= settings.maxApiAttempts {
            state.termination := Some(ApiError);
            GivesUp(old(asked), old(host.exchanges), a, view);
            return None;
          }
          MayPass(reply);
          var waited := WaitToRetry(reply, attempts);
          if !waited || host.raised.Some? {
            return None;
          }
        case OtherFailure =>
          state.termination := Some(ApiError);
          GivesUp(old(asked), old(host.exchanges), a, view);
          return None;
        case RequestInterrupted =>
          state.termination := Some(Interrupted);
          return None;
        case RequestRaised =>
          return None;
      }
      state.termination := Some(ApiError);
      UsedUp(old(asked), old(host.exchanges), a, view);
      return None;
    }

    lemma SettingsHold()
      requires Wired()
      ensures settings.Valid()
    {
    }

    lemma MayPass(reply: Reply)
      requires reply.RequestFailed? && reply.retryable
      ensures Transient(reply)
    {
    }

    /** Wait before the next attempt, or end the run if there is no time for it. */
    method WaitToRetry(reply: Reply, attempts: nat) returns (waited: bool)
      requires Clocked() && Transient(reply) && 1 <= attempts < settings.maxApiAttempts && host.raised == None
      requires host.exchanges != [] && host.exchanges[|host.exchanges| - 1].reply == reply && state.termination == None
      modifies host`now, host`slept, host`raised, host`struck, state`elapsed, state`apiRetries, state`termination
      ensures Clocked() && host.raised in {None, Some(RetryEvent)} && (host.raised.Some? ==> host.struck)
      ensures state.apiRetries == old(state.apiRetries) + if waited then 1 else 0
      ensures if waited then state.termination == None
              else state.termination == Some(MaxTime) && host.raised == None && NoTimeToRetry()
    {
      hide Clocked, NoTimeToRetry, PossibleDelay;
      ghost var delay;
      waited, delay := BackOff(reply.retryAfter, attempts);
      if !waited {
        state.termination := Some(MaxTime);
        DoesNotFit(reply, attempts, delay);
      }
    }

    lemma GivesUp(asked0: seq<Asking>, exchanges0: seq<Exchange>, a: Asking, view: seq<Message>)
      requires Repeats(asked0, exchanges0, asked, host.exchanges, a, view) && a.turn == |turns|
      requires settings.Valid() && |asked| == |host.exchanges| > |asked0|
      requires var reply := host.exchanges[|asked| - 1].reply;
               || reply.OtherFailure?
               || (reply.RequestFailed? && (!reply.retryable || |asked| >= |asked0| + settings.maxApiAttempts))
      ensures Surrendered()
    {
    }

    lemma UsedUp(asked0: seq<Asking>, exchanges0: seq<Exchange>, a: Asking, view: seq<Message>)
      requires Repeats(asked0, exchanges0, asked, host.exchanges, a, view) && a.turn == |turns|
      requires settings.Valid() && |asked| == |host.exchanges| == |asked0| + settings.maxApiAttempts
      requires AllTransient(host.exchanges, |asked0|)
      ensures Surrendered()
    {
      GivesUp(asked0, exchanges0, a, view);
    }

    lemma DoesNotFit(reply: Reply, attempts: nat, delay: real)
      requires host.exchanges != [] && host.exchanges[|host.exchanges| - 1].reply == reply && Transient(reply)
      requires attempts < settings.maxApiAttempts && PossibleDelay(reply.retryAfter, attempts, delay)
      requires state.elapsed + delay >= settings.maxSeconds
      ensures NoTimeToRetry()
    {
      hide PossibleDelay;
    }

    // ----- recording results -----

    ghost predicate Waiting(calls: seq<ToolCall>)
      reads history
    {
      && history.Valid() && history.pending == CallIds(calls)
      && LastKind(history.messages) in {AfterAssistant, AfterTool}
    }

    /** The first calls are answered in order after the messages `before`; the others wait. */
    ghost predicate Answered(before: seq<Message>, errors: nat, calls: seq<ToolCall>, results: seq<ToolResult>)
      reads history, state`toolErrors
    {
      && |results| <= |calls|
      && Waiting(calls[|results|..])
      && history.messages == before + ResultMessages(parts.render, calls, results)
      && state.toolErrors == errors + Failures(results)
    }

    /** A step of executing a batch raised; so many of the calls have their result. */
    ghost predicate Halted(results: nat, count: nat)
      reads host`raised, host`struck
    {
      host.raised.Some? && host.struck && host.raised.value.Executing() && host.raised.value.Answered(count) == results
    }

    lemma HaltsAt(results: nat, count: nat)
      requires host.struck
      requires host.raised in {Some(ApprovalEvents(results)), Some(ResultEvents(results - 1))} ||
               (results == 0 && host.raised.Some? && (host.raised.value.Preparing? || host.raised.value.ParsingFinish?))
      ensures Halted(results, count)
    {
    }

    /** Record the result of the next call; the history accepts it before its events are
        recorded, which may raise. */
    method RecordResult(calls: seq<ToolCall>, results: seq<ToolResult>, result: ToolResult,
                        ghost before: seq<Message>, ghost errors: nat)
      returns (more: seq<ToolResult>)
      requires Answered(before, errors, calls, results) && |results| < |calls| && host.raised == None
      modifies history, host`raised, host`struck, state`toolErrors, state`errorCodes
      ensures state.errorCodes == if result.ok then old(state.errorCodes) else WithErrorCode(old(state.errorCodes), result.code)
      ensures more == results + [result] && Answered(before, errors, calls, more)
      ensures host.raised.Some? ==> Halted(|more|, |calls|)
    {
      hide Replay, CallIds, Failures, ResultMessages, Halted, WithErrorCode;
      var call := calls[|results|];
      CallIdsHead(calls, |results|);
      OneMoreResult(parts.render, calls, results, result);
      OneMoreFailure(results, result);
      if !result.ok {
        state.toolErrors := state.toolErrors + 1;
        state.RecordErrorCode(result.code);
      }
      var error := history.AddTool(call.id, JsonObject(parts.render(result)));
      assert error == None;
      host.Take(ResultEvents(|results|), false);
      more := results + [result];
      if host.raised.Some? {
        HaltsAt(|more|, |calls|);
      }
    }

    method RecordAll(calls: seq<ToolCall>, results: seq<ToolResult>, ghost before: seq<Message>, ghost errors: nat)
      returns (done: seq<ToolResult>)
      requires |results| == |calls| && Answered(before, errors, calls, []) && host.raised == None
      modifies history, host`raised, host`struck, state`toolErrors, state`errorCodes
      ensures |done| <= |results| && done == results[..|done|] && Answered(before, errors, calls, done)
      ensures host.raised == None ==> done == results
      ensures host.raised.Some? ==> Halted(|done|, |calls|)
    {
      hide *;
      done := [];
      while |done| < |calls|
        invariant |done| <= |calls| && done == results[..|done|] && Answered(before, errors, calls, done)
        invariant host.raised == None
      {
        done := RecordResult(calls, done, results[|done|], before, errors);
        if host.raised.Some? {
          return;
        }
      }
      assert results[..|calls|] == results;
    }

    /** Tell every remaining call that it was not started. */
    method RecordSkipped(calls: seq<ToolCall>, done: seq<ToolResult>, ghost before: seq<Message>, ghost errors: nat)
      returns (results: seq<ToolResult>)
      requires Answered(before, errors, calls, done) && |done| <= |calls| && host.raised == None
      modifies history, host`raised, host`struck, state`toolErrors, state`errorCodes
      ensures |done| <= |results| <= |calls| && Answered(before, errors, calls, results)
      ensures results[..|done|] == done
      ensures forall i :: |done| <= i < |results| ==> results[i] == InterruptedResult(false)
      ensures host.raised == None ==> |results| == |calls|
      ensures host.raised.Some? ==> Halted(|results|, |calls|)
    {
      hide *;
      results := done;
      while |results| < |calls|
        invariant |done| <= |results| <= |calls| && Answered(before, errors, calls, results)
        invariant results[..|done|] == done && host.raised == None
        invariant forall i :: |done| <= i < |results| ==> results[i] == InterruptedResult(false)
      {
        results := RecordResult(calls, results, InterruptedResult(false), before, errors);
        if host.raised.Some? {
          return;
        }
      }
    }

    /** Tell the next call that it was interrupted, and the others that they were not started. */
    method RecordCut(calls: seq<ToolCall>, done: seq<ToolResult>, ghost before: seq<Message>, ghost errors: nat)
      returns (results: seq<ToolResult>)
      requires Answered(before, errors, calls, done) && |done| < |calls| && host.raised == None
      modifies history, host`raised, host`struck, state`toolErrors, state`errorCodes
      ensures |done| <= |results| <= |calls| && Answered(before, errors, calls, results)
      ensures results[..|done|] == done
      ensures forall i :: |done| <= i < |results| ==> results[i] == InterruptedResult(i == |done|)
      ensures host.raised == None ==> |results| == |calls|
      ensures host.raised.Some? ==> Halted(|results|, |calls|)
    {
      hide *;
      host.Take(ApprovalEvents(|done|), false);
      if host.raised.Some? {
        HaltsAt(|done|, |calls|);
        return done;
      }
      results := RecordResult(calls, done, InterruptedResult(true), before, errors);
      if host.raised.Some? {
        return;
      }
      ghost var told := results;
      results := RecordSkipped(calls, results, before, errors);
      assert results[..|done|] == done && results[|done|] == told[|done|] by {
        assert told == results[..|told|] && done == told[..|done|];
      }
    }

    // ----- tool batches -----

    ghost predicate Logged()
      reads this`log
      reads state`eventSequence, state`lastModified, state`changed, state`observations, state`latest
    {
      state.Evidence() == FactsOf(parts.normalize, log)
    }

    ghost predicate RefusalsFail(prepared: seq<Preparation>) {
      forall i :: 0 <= i < |prepared| && prepared[i].Refused? ==> !prepared[i].result.ok
    }

    /** Validate every call before any of them runs; None is an interrupt. */
    method PrepareAll(calls: seq<ToolCall>) returns (r: Option<seq<Preparation>>)
      requires !host.stopAsked && host.raised == None
      modifies host`stopAsked, host`checks, host`raised, host`struck
      ensures r.Some? ==> |r.value| == |calls| && RefusalsFail(r.value) && host.raised == None
      ensures r.Some? ==> host.checks == old(host.checks) + r.value
      ensures r == None ==> |host.checks| < |old(host.checks)| + |calls|
      ensures host.raised == None ==> (host.stopAsked <==> r == None)
      ensures host.raised.Some? ==> Halted(0, |calls|)
    {
      var prepared: seq<Preparation> := [];
      while |prepared| < |calls|
        invariant |prepared| <= |calls|
        invariant RefusalsFail(prepared) && !host.stopAsked && host.raised == None
        invariant host.checks == old(host.checks) + prepared
      {
        host.Take(Preparing(|prepared|), false);
        if host.raised.Some? {
          return None;
        }
        var p := host.Prepare(calls[|prepared|]);
        if p == None {
          return None;
        }
        prepared := prepared + [p.value];
      }
      return Some(prepared);
    }

    /** A finish request alone in its batch. */
    method RunFinish(calls: seq<ToolCall>, ghost before: seq<Message>, ghost errors: nat)
      returns (batch: BatchOutcome, ghost trail: Trail)
      requires Wired() && Logged() && Answered(before, errors, calls, [])
      requires |calls| == 1 && calls[0].name == FINISH_TASK_NAME && !host.stopAsked && host.raised == None
      modifies this`log, history, state`eventSequence, state`toolErrors, state`errorCodes
      modifies host`parsed, host`stopAsked, host`raised, host`struck
      ensures Logged() && log == old(log) + trail.ran
      ensures |batch.results| <= 1 && Answered(before, errors, calls, batch.results) && !batch.modified
      ensures Untouched(batch.results, trail) || FinishHandled(calls, trail)
      ensures batch.finish.Some? ==>
                && FinishHandled(calls, trail) && host.parsed == Some(Asked(batch.finish.value.request))
                && batch.finish.value.status == Decide(batch.finish.value.request.blockedReason, state.Evidence())
      ensures host.raised.Some? ==> Halted(|batch.results|, 1) && batch.finish == None
      ensures host.raised == None ==>
                && |batch.results| == 1 && (batch.interrupted <==> host.stopAsked)
                && (batch.interrupted ==> !batch.results[0].ok && batch.finish == None)
                && (batch.finish.Some? <==> batch.results[0].ok)
    {
      hide Record, FactsOf, Waiting, Failures, ResultMessages, Decide;
      var cancelled := host.CancelRequested();
      if cancelled {
        var skipped := RecordSkipped(calls, [], before, errors);
        return BatchOutcome(skipped, None, false, true), NOTHING;
      }
      OneMoreEvent(parts.normalize, log, FinishAsked);
      tracker.RecordFinish();
      log := log + [FinishAsked];
      trail := Trail([], [FinishAsked]);
      host.Take(ParsingFinish, false);
      if host.raised.Some? {
        return BatchOutcome([], None, false, false), trail;
      }
      var parsed := host.ParseFinish(calls[0]);
      match parsed
      case ParseInterrupted =>
        var results := RecordCut(calls, [], before, errors);
        batch := BatchOutcome(results, None, false, true);
      case BadRequest(result) =>
        var results := RecordResult(calls, [], result, before, errors);
        batch := BatchOutcome(results, None, false, false);
      case Asked(request) =>
        var outcome := BuildFinishOutcome(request, state);
        var result := ToolResult(true, "", OtherData, parts.finishDetail(request, state.Evidence()));
        var results := RecordResult(calls, [], result, before, errors);
        batch := BatchOutcome(results, if host.raised == None then Some(outcome) else None, false, false);
    }

    /** Execute one call; one that returns leaves one event, unless recording its
        approvals raises first. */
    method RunTool(call: ToolCall, number: nat) returns (result: Option<ToolResult>)
      requires Wired() && Logged() && Clocked() && !host.stopAsked && host.raised == None
      modifies this`log, host`now, host`waited, host`executed, host`stopAsked, host`raised, host`struck
      modifies state`eventSequence, state`lastModified, state`changed, state`observations, state`latest
      ensures host.stopAsked <==> result == None
      ensures host.raised in {None, Some(ApprovalEvents(number))} && (host.raised.Some? ==> result.Some? && host.struck)
      ensures Clocked() && Logged() && host.executed == old(host.executed) + [Effect(call, result)]
      ensures log == if result.Some? && host.raised == None then old(log) + [Ran(call.name, result.value)] else old(log)
    {
      hide Record, FactsOf;
      result := host.Execute(call);
      if result.Some? {
        host.Take(ApprovalEvents(number), false);
        if host.raised == None {
          OneMoreEvent(parts.normalize, log, Ran(call.name, result.value));
          var _ := tracker.RecordExecution(call.name, result.value);
          log := log + [Ran(call.name, result.value)];
        }
      }
    }

    /** Run prepared calls one after the other. */
    method RunTools(calls: seq<ToolCall>, ghost before: seq<Message>, ghost errors: nat)
      returns (batch: BatchOutcome, ghost trail: Trail)
      requires Wired() && Logged() && Clocked() && Answered(before, errors, calls, [])
      requires forall i :: 0 <= i < |calls| ==> calls[i].name != FINISH_TASK_NAME
      requires !host.stopAsked && host.raised == None
      modifies this`log, history, host`now, host`waited, host`executed, host`stopAsked, host`raised, host`struck
      modifies state`eventSequence, state`lastModified, state`changed, state`observations, state`latest
      modifies state`toolErrors, state`errorCodes
      ensures Clocked()
      ensures Logged() && log == old(log) + trail.ran && host.executed == old(host.executed) + trail.executed
      ensures Answered(before, errors, calls, batch.results) && ExecutedPrefix(calls, batch.results, trail)
      ensures batch.finish == None && batch.modified == Wrote(parts.modifiesWorkspace, calls, batch.results, trail)
      ensures host.raised.Some? ==> Halted(|batch.results|, |calls|)
      ensures host.raised == None ==>
                && |batch.results| == |calls| && (batch.interrupted <==> |trail.ran| < |calls|)
                && (batch.interrupted <==> host.stopAsked)
    {
      hide *;
      var results: seq<ToolResult> := [];
      var modified := false;
      trail := NOTHING;
      NothingRun(calls);
      while |results| < |calls|
        invariant |results| <= |calls| && Clocked() && Logged()
        invariant Answered(before, errors, calls, results)
        invariant RanSoFar(calls, results, trail)
        invariant log == old(log) + trail.ran && host.executed == old(host.executed) + trail.executed
        invariant modified == WroteSoFar(calls, results) && !host.stopAsked && host.raised == None
      {
        var call := calls[|results|];
        var cancelled := host.CancelRequested();
        if cancelled {
          assert trail.executed + [] == trail.executed;
          batch, trail := AbandonTools(calls, results, modified, false, [], trail, before, errors);
          return;
        }
        var outcome := RunTool(call, |results|);
        if outcome == None {
          batch, trail := AbandonTools(calls, results, modified, true, [Effect(call, outcome)], trail, before, errors);
          return;
        }
        if host.raised.Some? {
          HaltsAt(|results|, |calls|);
          CutShort(calls, results, trail, [Effect(call, outcome)], results);
          return BatchOutcome(results, None, modified, false), Trail(trail.executed + [Effect(call, outcome)], trail.ran);
        }
        var result := outcome.value;
        modified := modified || (parts.modifiesWorkspace(call.name) && result.ok);
        StepTaken(calls, results, trail, result);
        trail := Trail(trail.executed + [Effect(call, outcome)], trail.ran + [Ran(call.name, result)]);
        results := RecordResult(calls, results, result, before, errors);
        if host.raised.Some? {
          AllRun(calls, results, trail);
          return BatchOutcome(results, None, modified, false), trail;
        }
      }
      AllRun(calls, results, trail);
      batch := BatchOutcome(results, None, modified, false);
    }

    /** Tell the next call that it was interrupted, if it was started, and the others that
        they were not started. */
    method AbandonTools(calls: seq<ToolCall>, done: seq<ToolResult>, modified: bool, started: bool, ghost last: seq<Effect>,
                        ghost trail: Trail, ghost before: seq<Message>, ghost errors: nat)
      returns (batch: BatchOutcome, ghost after: Trail)
      requires Answered(before, errors, calls, done) && |done| < |calls| && host.raised == None
      requires RanSoFar(calls, done, trail) && modified == WroteSoFar(calls, done)
      requires if started then |last| == 1 && last[0].call == calls[|done|] else last == []
      modifies history, host`raised, host`struck, state`toolErrors, state`errorCodes
      ensures after == Trail(trail.executed + last, trail.ran) && |after.ran| < |calls|
      ensures Answered(before, errors, calls, batch.results) && ExecutedPrefix(calls, batch.results, after)
      ensures batch.finish == None && batch.modified == Wrote(parts.modifiesWorkspace, calls, batch.results, after)
      ensures host.raised.Some? ==> Halted(|batch.results|, |calls|)
      ensures host.raised == None ==> |batch.results| == |calls| && batch.interrupted
    {
      hide *;
      var all;
      if started {
        all := RecordCut(calls, done, before, errors);
      } else {
        all := RecordSkipped(calls, done, before, errors);
      }
      CutShort(calls, done, trail, last, all);
      batch, after := BatchOutcome(all, None, modified, true), Trail(trail.executed + last, trail.ran);
    }

    lemma NothingRun(calls: seq<ToolCall>)
      ensures RanSoFar(calls, [], NOTHING) && !WroteSoFar(calls, [])
    {
    }

    lemma AllRun(calls: seq<ToolCall>, results: seq<ToolResult>, trail: Trail)
      requires RanSoFar(calls, results, trail)
      ensures ExecutedPrefix(calls, results, trail) && |trail.ran| == |results|
      ensures WroteSoFar(calls, results) == Wrote(parts.modifiesWorkspace, calls, results, trail)
    {
    }

    ghost predicate WroteSoFar(calls: seq<ToolCall>, results: seq<ToolResult>)
      requires |results| <= |calls|
    {
      exists i :: 0 <= i < |results| && results[i].ok && parts.modifiesWorkspace(calls[i].name)
    }

    ghost predicate RanSoFar(calls: seq<ToolCall>, results: seq<ToolResult>, trail: Trail) {
      && |trail.ran| == |trail.executed| == |results| <= |calls|
      && (forall i :: 0 <= i < |results| ==> trail.executed[i] == Effect(calls[i], Some(results[i])))
      && forall i :: 0 <= i < |results| ==> trail.ran[i] == Ran(calls[i].name, results[i])
    }

    lemma StepTaken(calls: seq<ToolCall>, results: seq<ToolResult>, trail: Trail, result: ToolResult)
      requires RanSoFar(calls, results, trail) && |results| < |calls|
      ensures var call := calls[|results|];
              RanSoFar(calls, results + [result],
                       Trail(trail.executed + [Effect(call, Some(result))], trail.ran + [Ran(call.name, result)]))
      ensures WroteSoFar(calls, results + [result]) ==
              (WroteSoFar(calls, results) || (parts.modifiesWorkspace(calls[|results|].name) && result.ok))
    {
      var more := results + [result];
      if i :| 0 <= i < |results| && results[i].ok && parts.modifiesWorkspace(calls[i].name) {
        assert more[i].ok;
      }
      assert more[|results|] == result;
    }

    lemma CutShort(calls: seq<ToolCall>, results: seq<ToolResult>, trail: Trail, started: seq<Effect>, all: seq<ToolResult>)
      requires RanSoFar(calls, results, trail) && |results| < |calls| && |results| <= |all| <= |calls|
      requires results == all[..|results|]
      requires started == [] || (|started| == 1 && started[0].call == calls[|results|])
      requires forall i :: |results| <= i < |all| ==> all[i] == InterruptedResult(started != [] && i == |results|)
      ensures var after := Trail(trail.executed + started, trail.ran);
              ExecutedPrefix(calls, all, after) && |after.ran| < |calls|
      ensures var after := Trail(trail.executed + started, trail.ran);
              WroteSoFar(calls, results) == Wrote(parts.modifiesWorkspace, calls, all, after)
    {
      forall i | 0 <= i < |trail.ran| ensures trail.ran[i] == Ran(calls[i].name, all[i]) {
        assert all[i] == results[i];
      }
      if i :| 0 <= i < |results| && results[i].ok && parts.modifiesWorkspace(calls[i].name) {
        assert all[i].ok;
      }
    }

    ghost predicate AnyRefused(prepared: seq<Preparation>) {
      exists i :: 0 <= i < |prepared| && prepared[i].Refused?
    }

    /** What a call of an invalid batch is told. */
    function Rejection(calls: seq<ToolCall>, call: ToolCall, p: Preparation): ToolResult {
      if CallIds(calls)[call.id] > 1 then Failure("DUPLICATE_TOOL_CALL_ID")
      else if p.Refused? then p.result
      else Failure("BATCH_REJECTED")
    }

    ghost predicate Rejected(calls: seq<ToolCall>, prepared: seq<Preparation>, results: seq<ToolResult>)
      requires |prepared| == |calls|
    {
      |results| <= |calls| &&
      forall i :: 0 <= i < |results| ==> ToldRejected(calls, prepared, i, results[i])
    }

    /** A call that shares its identifier is told so, a refused one why, any other that the
        batch was rejected. */
    predicate ToldRejected(calls: seq<ToolCall>, prepared: seq<Preparation>, i: nat, result: ToolResult)
      requires i < |calls| == |prepared|
    {
      if SharesId(calls, i) then result == Failure("DUPLICATE_TOOL_CALL_ID")
      else match prepared[i]
           case Refused(why) => result == why
           case Prepared => result == Failure("BATCH_REJECTED")
    }

    lemma RejectionTold(calls: seq<ToolCall>, prepared: seq<Preparation>, i: nat)
      requires i < |calls| == |prepared|
      ensures ToldRejected(calls, prepared, i, Rejection(calls, calls[i], prepared[i]))
    {
      hide SharesId, CallIds;
      DuplicatesExactly(calls, i);
    }

    method RejectFinish(calls: seq<ToolCall>) returns (results: seq<ToolResult>)
      ensures |results| == |calls| && forall i :: 0 <= i < |calls| ==> results[i] == FinishRejection(calls[i])
    {
      results := [];
      while |results| < |calls|
        invariant |results| <= |calls| && forall i :: 0 <= i < |results| ==> results[i] == FinishRejection(calls[i])
      {
        results := results + [FinishRejection(calls[|results|])];
      }
    }

    method RejectInvalid(calls: seq<ToolCall>, prepared: seq<Preparation>) returns (results: seq<ToolResult>)
      requires |prepared| == |calls| && RefusalsFail(prepared)
      ensures |results| == |calls| && Rejected(calls, prepared, results) && AllRefused(results)
    {
      hide CallIds, ToldRejected;
      results := [];
      while |results| < |calls|
        invariant |results| <= |calls| && Rejected(calls, prepared, results) && AllRefused(results)
      {
        RejectionTold(calls, prepared, |results|);
        results := results + [Rejection(calls, calls[|results|], prepared[|results|])];
      }
    }

    method Invalid(calls: seq<ToolCall>, prepared: seq<Preparation>) returns (invalid: bool)
      requires |prepared| == |calls|
      ensures invalid <==> DuplicateIds(calls) || AnyRefused(prepared)
    {
      hide CallIds;
      invalid := DuplicateIds(calls);
      for i := 0 to |prepared|
        invariant invalid <==> DuplicateIds(calls) || exists j :: 0 <= j < i && prepared[j].Refused?
      {
        if prepared[i].Refused? {
          invalid := true;
        }
      }
    }

    /** Run one batch. All calls are validated before any is executed; one invalid call
        keeps all of them from running, and every call gets one result in call order,
        unless recording one raises. */
    method ExecuteBatch(calls: seq<ToolCall>, ghost before: seq<Message>, ghost errors: nat)
      returns (batch: BatchOutcome, ghost trail: Trail, ghost prepared: Option<seq<Preparation>>)
      requires Wired() && Logged() && Clocked() && Answered(before, errors, calls, []) && calls != []
      requires !host.stopAsked && host.raised == None && state.elapsed < settings.maxSeconds
      modifies this`log, history, host`now, host`waited, host`executed, host`checks, host`parsed, host`stopAsked, host`raised, host`struck
      modifies state`eventSequence, state`lastModified, state`changed, state`observations, state`latest
      modifies state`toolErrors, state`errorCodes
      ensures Clocked()
      ensures Logged() && log == old(log) + trail.ran && host.executed == old(host.executed) + trail.executed
      ensures Answered(before, errors, calls, batch.results) && Conducted(calls, batch.results, trail)
      ensures FinishNotAlone(calls) ==>
                Untouched(batch.results, trail) && |batch.results| <= |calls| &&
                forall i :: 0 <= i < |batch.results| ==> ToldToComeAlone(calls[i], batch.results[i])
      ensures prepared.Some? ==> |prepared.value| == |calls| && host.checks == old(host.checks) + prepared.value
      ensures prepared == None ==> |host.checks| < |old(host.checks)| + |calls|
      ensures prepared.Some? && (DuplicateIds(calls) || AnyRefused(prepared.value)) ==>
                Untouched(batch.results, trail) && Rejected(calls, prepared.value, batch.results)
      ensures FinishClosed(calls, batch, trail)
      ensures batch.modified == Wrote(parts.modifiesWorkspace, calls, batch.results, trail)
      ensures host.raised.Some? ==> Halted(|batch.results|, |calls|)
      ensures host.raised == None ==>
                && |batch.results| == |calls| && (batch.interrupted <==> host.stopAsked)
                && (batch.interrupted ==> batch.finish == None)
                && (!batch.interrupted && batch.finish == None ==> Completed(Batch(calls, batch.results, batch.modified)))
    {
      hide *;
      prepared := None;
      if FinishNotAlone(calls) {
        var results := RejectFinish(calls);
        RejectionsRefuse(calls, results);
        results := RecordAll(calls, results, before, errors);
        batch, trail := BatchOutcome(results, None, false, false), NOTHING;
        UntouchedConducted(calls, batch, trail);
        return;
      }
      var checked := PrepareAll(calls);
      if host.raised.Some? {
        batch, trail := BatchOutcome([], None, false, false), NOTHING;
        SkipsRefuse([]);
        UntouchedConducted(calls, batch, trail);
        return;
      }
      if checked == None {
        var results := RecordSkipped(calls, [], before, errors);
        SkipsRefuse(results);
        batch, trail := BatchOutcome(results, None, false, true), NOTHING;
        UntouchedConducted(calls, batch, trail);
        return;
      }
      prepared := checked;
      var invalid := Invalid(calls, checked.value);
      if invalid {
        var results := RejectInvalid(calls, checked.value);
        ghost var all := results;
        results := RecordAll(calls, results, before, errors);
        FewerRejected(calls, checked.value, all, |results|);
        batch, trail := BatchOutcome(results, None, false, false), NOTHING;
        UntouchedConducted(calls, batch, trail);
        return;
      }
      if |calls| == 1 && calls[0].name == FINISH_TASK_NAME {
        batch, trail := RunFinish(calls, before, errors);
        FinishConducted(calls, batch, trail);
      } else {
        NoFinish(calls);
        batch, trail := RunTools(calls, before, errors);
        ToolsConducted(calls, batch, trail);
      }
    }

    lemma FewerRejected(calls: seq<ToolCall>, prepared: seq<Preparation>, all: seq<ToolResult>, n: nat)
      requires |prepared| == |calls| && Rejected(calls, prepared, all) && AllRefused(all) && n <= |all|
      ensures Rejected(calls, prepared, all[..n]) && AllRefused(all[..n])
    {
      hide CallIds, ToldRejected;
    }

    /** A batch closes the run only as a lone accepted finish request, with the status
        that the evidence at that moment decides. */
    ghost predicate FinishClosed(calls: seq<ToolCall>, batch: BatchOutcome, trail: Trail)
      reads host`parsed, state`eventSequence, state`lastModified, state`changed, state`observations, state`latest
    {
      batch.finish.Some? ==>
        && FinishHandled(calls, trail) && |batch.results| == 1 && batch.results[0].ok
        && host.parsed == Some(Asked(batch.finish.value.request))
        && batch.finish.value.status == Decide(batch.finish.value.request.blockedReason, state.Evidence())
    }

    lemma RejectionsRefuse(calls: seq<ToolCall>, results: seq<ToolResult>)
      requires |results| == |calls| && forall i :: 0 <= i < |calls| ==> results[i] == FinishRejection(calls[i])
      ensures forall n: nat :: n <= |results| ==> AllRefused(results[..n])
      ensures forall i :: 0 <= i < |results| ==> ToldToComeAlone(calls[i], results[i])
    {
    }

    lemma SkipsRefuse(results: seq<ToolResult>)
      requires forall i :: 0 <= i < |results| ==> results[i] == InterruptedResult(false)
      ensures AllRefused(results)
    {
    }

    lemma NoFinish(calls: seq<ToolCall>)
      requires !FinishNotAlone(calls) && !(|calls| == 1 && calls[0].name == FINISH_TASK_NAME)
      ensures forall i :: 0 <= i < |calls| ==> calls[i].name != FINISH_TASK_NAME
    {
    }

    lemma UntouchedConducted(calls: seq<ToolCall>, batch: BatchOutcome, trail: Trail)
      requires |batch.results| <= |calls| && calls != [] && AllRefused(batch.results) && trail == NOTHING
      requires !batch.modified && batch.finish == None
      ensures Conducted(calls, batch.results, trail) && Untouched(batch.results, trail)
      ensures |batch.results| == |calls| ==> Completed(Batch(calls, batch.results, batch.modified))
      ensures FinishClosed(calls, batch, trail)
      ensures trail.ran == [] && trail.executed == []
      ensures !Wrote(parts.modifiesWorkspace, calls, batch.results, trail)
    {
      hide FinishNotAlone, DuplicateIds;
    }

    lemma FinishConducted(calls: seq<ToolCall>, batch: BatchOutcome, trail: Trail)
      requires |batch.results| <= |calls| == 1 && !DuplicateIds(calls) && !batch.modified
      requires Untouched(batch.results, trail) || FinishHandled(calls, trail)
      requires |batch.results| == 1 && batch.finish.Some? ==> batch.results[0].ok
      requires |batch.results| == 1 && batch.results[0].ok ==> batch.finish.Some? || host.raised.Some?
      requires batch.finish.Some? ==> |batch.results| == 1
      requires batch.finish.Some? ==>
                 && FinishHandled(calls, trail) && host.parsed == Some(Asked(batch.finish.value.request))
                 && batch.finish.value.status == Decide(batch.finish.value.request.blockedReason, state.Evidence())
      ensures Conducted(calls, batch.results, trail) && FinishClosed(calls, batch, trail)
      ensures trail.executed == [] && !Wrote(parts.modifiesWorkspace, calls, batch.results, trail)
      ensures host.raised == None && |batch.results| == 1 && batch.finish == None ==>
                Completed(Batch(calls, batch.results, batch.modified))
    {
      hide DuplicateIds, Decide;
    }

    lemma ToolsConducted(calls: seq<ToolCall>, batch: BatchOutcome, trail: Trail)
      requires calls != [] && !DuplicateIds(calls) && !FinishNotAlone(calls)
      requires forall i :: 0 <= i < |calls| ==> calls[i].name != FINISH_TASK_NAME
      requires ExecutedPrefix(calls, batch.results, trail) && batch.finish == None
      requires batch.modified == Wrote(parts.modifiesWorkspace, calls, batch.results, trail)
      ensures Conducted(calls, batch.results, trail) && FinishClosed(calls, batch, trail)
      ensures |batch.results| == |calls| ==> Completed(Batch(calls, batch.results, batch.modified))
    {
      hide DuplicateIds, FinishNotAlone;
    }

    // ----- deciding whether the run goes on -----

    ghost predicate FailuresCounted(batches: seq<Batch>)
      reads state`consecutiveFailures
    {
      LongestFailedSuffix(batches, state.consecutiveFailures)
    }

    ghost predicate RepeatsCounted(batches: seq<Batch>)
      reads progress, state`noProgress
    {
      progress.Valid() && progress.seen == batches && state.noProgress == progress.repeats
    }

    /** Both counters are exact for the batches so far and below their limits. */
    ghost predicate Quiet(batches: seq<Batch>)
      reads progress, state`noProgress, state`consecutiveFailures, state`termination, state`completion
    {
      && FailuresCounted(batches) && state.consecutiveFailures < settings.maxConsecutiveFailures
      && RepeatsCounted(batches) && state.noProgress < NO_PROGRESS_TERMINATION_REPEAT
      && state.termination == None && state.completion == None
    }

    /** Why a run may end after a batch, given all batches including this one. */
    ghost predicate Stopped(batches: seq<Batch>, batch: BatchOutcome)
      reads progress, state`noProgress, state`consecutiveFailures, state`termination, state`completion, state`blockedReason
      reads state`elapsed
    {
      match state.termination
      case Some(FinishTask) =>
        && batch.finish.Some?
        && state.completion == Some(batch.finish.value.status)
        && state.blockedReason == batch.finish.value.request.blockedReason
      case Some(MaxConsecutiveFailures) =>
        FailuresCounted(batches) && state.consecutiveFailures == settings.maxConsecutiveFailures && state.completion == None
      case Some(NoProgress) =>
        RepeatsCounted(batches) && state.noProgress == NO_PROGRESS_TERMINATION_REPEAT && state.completion == None
      case Some(Interrupted) => state.completion == None && batch.interrupted
      case Some(MaxTime) => state.completion == None && state.elapsed >= settings.maxSeconds
      case _ => false
    }

    method Judge(calls: seq<ToolCall>, batch: BatchOutcome, truncated: bool, ghost seen: seq<Batch>)
      returns (over: bool, note: Option<string>)
      requires Wired() && Clocked() && Quiet(seen) && |batch.results| == |calls| && host.raised == None
      requires !batch.interrupted && batch.finish == None ==> Completed(Batch(calls, batch.results, batch.modified))
      modifies host`now, host`raised, host`struck, progress
      modifies state`elapsed, state`termination, state`completion, state`blockedReason
      modifies state`consecutiveFailures, state`noProgress
      ensures Clocked() && (state.elapsed < settings.maxSeconds || state.termination in {Some(Interrupted), Some(MaxTime)})
      ensures host.raised.Some? ==>
                && note == None && !batch.interrupted && host.struck
                && if host.raised == Some(CompletionEvent)
                   then Stopped(seen + [Batch(calls, batch.results, batch.modified)], batch) &&
                        state.termination == Some(FinishTask)
                   else host.raised == Some(RepeatEvent) && state.completion == None
      ensures host.raised == None ==>
                && (over ==> Stopped(seen + [Batch(calls, batch.results, batch.modified)], batch) && note == None)
                && (batch.interrupted <==> state.termination == Some(Interrupted))
                && (!over ==> !batch.interrupted && NoteTold(note, state.noProgress, truncated))
                && (!over ==> Quiet(seen + [Batch(calls, batch.results, batch.modified)]))
    {
      hide LongestFailedSuffix, LongestRepeatedSuffix, Completed, FailuresAfter, Clocked, Wired, NoteTold;
      note := None;
      var left := RemainingSeconds();
      if batch.interrupted {
        state.termination := Some(Interrupted);
        return true, None;
      }
      if left <= 0.0 {
        state.termination := Some(MaxTime);
        return true, None;
      }
      if batch.finish.Some? {
        state.termination, state.completion := Some(FinishTask), Some(batch.finish.value.status);
        state.blockedReason := batch.finish.value.request.blockedReason;
        host.Take(CompletionEvent, false);
        return true, None;
      }
      var b := Batch(calls, batch.results, batch.modified);
      CountersGrow(seen, state.consecutiveFailures, b);
      UpdateConsecutiveFailures(b, state);
      if state.consecutiveFailures >= settings.maxConsecutiveFailures {
        state.termination := Some(MaxConsecutiveFailures);
        return true, None;
      }
      var observation := progress.Observe(b);
      state.noProgress := observation.repeats;
      if observation.terminate {
        state.termination := Some(NoProgress);
        return true, None;
      }
      over := false;
      note := ProgressNote(observation.warn, truncated);
    }

    /** What the model is told after a batch. */
    method ProgressNote(warn: bool, truncated: bool) returns (note: Option<string>)
      requires host.raised == None && (warn <==> state.noProgress == NO_PROGRESS_WARNING_REPEAT)
      modifies host`raised, host`struck
      ensures host.raised in {None, Some(RepeatEvent)} && (host.raised.Some? ==> note == None && host.struck)
      ensures host.raised == None ==> NoteTold(note, state.noProgress, truncated)
    {
      note := None;
      if warn {
        host.Take(RepeatEvent, false);
        if host.raised.Some? {
          return;
        }
        note := Some(if truncated then NO_PROGRESS_MESSAGE + "\n\n" + OUTPUT_TRUNCATED_MESSAGE else NO_PROGRESS_MESSAGE);
      } else if truncated {
        note := Some(OUTPUT_TRUNCATED_MESSAGE);
      }
    }

    lemma CountersGrow(seen: seq<Batch>, failures: nat, b: Batch)
      requires LongestFailedSuffix(seen, failures) && Completed(b)
      ensures |b.calls| == |b.results|
      ensures LongestFailedSuffix(seen + [b], FailuresAfter(b, failures)) && FailuresAfter(b, failures) <= failures + 1
    {
      FailuresCountSuffix(seen, failures, b);
    }

    // ----- turns -----

    /** The whole run so far is on record: the history is the opening and the turns, all
        calls are answered, and the counters agree with the turns. */
    ghost predicate OnRecord()
      reads this`log, this`turns, history, host`executed
      reads state`eventSequence, state`lastModified, state`changed, state`observations, state`latest
      reads state`modelCalls, state`toolCalls, state`toolErrors
    {
      && AllConducted(turns) && ModificationsTold(parts.modifiesWorkspace, turns) && TurnsAnnounced(parts, turns)
      && history.Valid() && history.pending == multiset{}
      && history.messages == [System(prompt), User(task)] + Transcript(parts.render, turns)
      && Logged() && log == EventsOf(turns) && host.executed == ExecutedIn(turns)
      && state.modelCalls == |turns| && state.toolCalls == CallCount(turns) && state.toolErrors == ErrorCount(turns)
    }

    /** The run so far is on record up to a turn that an exception cut off: the history
        ends with the response and the results recorded before it, the other calls are
        pending, and a step that raised says how many there are. */
    ghost predicate CutOnRecord()
      reads this`log, this`turns, this`cut, history, host`executed, host`raised, host`struck, host`parsed
      reads state`eventSequence, state`lastModified, state`changed, state`observations, state`latest
      reads state`modelCalls, state`toolCalls, state`toolErrors, state`completion, state`blockedReason
    {
      && cut.Some? && AllConducted(turns) && ModificationsTold(parts.modifiesWorkspace, turns) && TurnsAnnounced(parts, turns)
      && CutShortBy(cut.value)
      && Answered([System(prompt), User(task)] + Transcript(parts.render, turns) + [Assistant(cut.value.response)],
                  ErrorCount(turns), cut.value.response.calls, cut.value.results)
      && Logged() && log == EventsOf(turns) + cut.value.trail.ran
      && host.executed == ExecutedIn(turns) + cut.value.trail.executed
      && state.modelCalls == |turns| + 1
      && state.toolCalls == CallCount(turns) +
                            if host.raised.value.Announcing() then 0 else |cut.value.response.calls|
    }

    /** The step that raised fits how far the turn got. */
    ghost predicate CutShortBy(c: Cut)
      reads host`raised, host`struck, host`parsed, state`completion, state`blockedReason
      reads state`eventSequence, state`lastModified, state`changed, state`observations, state`latest
    {
      && host.raised.Some? && !host.raised.value.BetweenTurns()
      && (host.struck || !AllAnnounceable(parts, c.response.calls))
      && Conducted(c.response.calls, c.results, c.trail)
      && |c.results| == host.raised.value.Answered(|c.response.calls|)
      && (if host.raised.value.Announcing() then c.trail == NOTHING else AllAnnounceable(parts, c.response.calls))
      && (state.completion.Some? <==> host.raised == Some(CompletionEvent))
      && (state.completion.Some? ==>
            && FinishHandled(c.response.calls, c.trail) && |c.results| == 1 && c.results[0].ok && BlockedAsAsked()
            && state.completion == Some(Decide(state.blockedReason, state.Evidence())))
    }

    /** `calls` requests were answered; the attempts and retries they took are bounded. */
    ghost predicate Requested(calls: nat)
      reads state`apiAttempts, state`apiRetries, host`exchanges
    {
      && state.apiAttempts == |host.exchanges|
      && state.apiAttempts <= calls * settings.maxApiAttempts
      && state.apiRetries == state.apiAttempts - calls
    }

    /** A silent turn is repaired once. */
    ghost predicate Repaired(turns: seq<Turn>)
      reads state`protocolRepairs
    {
      state.protocolRepairs == SilentTurns(turns) <= 1
    }

    /** The state in which the loop asks the model again. */
    ghost predicate Ready()
      reads this, history, host, state, progress
    {
      && OnRecord() && Clocked() && Requested(|turns|) && Quiet(BatchesOf(turns)) && Repaired(turns)
      && LastKind(history.messages) in {AfterUser, AfterTool} && !host.stopAsked
      && cut == None && host.raised == None
    }

    /** The blocker recorded is the one the last finish request named. */
    ghost predicate BlockedAsAsked()
      reads host`parsed, state`blockedReason
    {
      host.parsed.Some? && host.parsed.value.Asked? && host.parsed.value.request.blockedReason == state.blockedReason
    }

    /** Why the run may end with a batch, given all batches including this one. */
    ghost predicate Closed(batches: seq<Batch>, calls: seq<ToolCall>, results: seq<ToolResult>, trail: Trail)
      reads progress, state, host`parsed
    {
      match state.termination
      case Some(FinishTask) =>
        && FinishHandled(calls, trail) && |results| == 1 && results[0].ok && BlockedAsAsked()
        && state.completion == Some(Decide(state.blockedReason, state.Evidence()))
      case Some(MaxConsecutiveFailures) =>
        FailuresCounted(batches) && state.consecutiveFailures == settings.maxConsecutiveFailures && state.completion == None
      case Some(NoProgress) =>
        RepeatsCounted(batches) && state.noProgress == NO_PROGRESS_TERMINATION_REPEAT && state.completion == None
      case Some(Interrupted) => state.completion == None
      case Some(MaxTime) => state.completion == None && state.elapsed >= settings.maxSeconds
      case _ => false
    }

    lemma StoppedCloses(batches: seq<Batch>, calls: seq<ToolCall>, batch: BatchOutcome, trail: Trail)
      requires Stopped(batches, batch) && FinishClosed(calls, batch, trail)
      ensures Closed(batches, calls, batch.results, trail)
    {
      hide FailuresCounted, RepeatsCounted, FinishHandled;
    }

    /** Stop before any call of a response is started. */
    method AnswerNotStarted(calls: seq<ToolCall>, cancelled: bool, ghost before: seq<Message>, ghost errors: nat, ghost seen: seq<Batch>)
      returns (results: seq<ToolResult>)
      requires Answered(before, errors, calls, []) && state.completion == None && host.raised == None
      requires !cancelled ==> state.elapsed >= settings.maxSeconds
      modifies history, host`raised, host`struck, state`toolErrors, state`errorCodes, state`termination
      ensures Answered(before, errors, calls, results) && Conducted(calls, results, NOTHING)
      ensures !Wrote(parts.modifiesWorkspace, calls, results, NOTHING)
      ensures NOTHING.ran == [] && NOTHING.executed == []
      ensures host.raised.Some? ==> Halted(|results|, |calls|)
      ensures host.raised == None ==>
                && |results| == |calls|
                && state.termination == Some(if cancelled then Interrupted else MaxTime)
                && Closed(seen + [Batch(calls, results, false)], calls, results, NOTHING)
    {
      hide *;
      var all := NotStarted(calls);
      results := RecordAll(calls, all, before, errors);
      NotStartedSoFar(calls, all, |results|);
      if host.raised.Some? {
        return;
      }
      state.termination := Some(if cancelled then Interrupted else MaxTime);
      StoppedEarly(seen + [Batch(calls, results, false)], calls, results);
    }

    lemma NotStartedSoFar(calls: seq<ToolCall>, all: seq<ToolResult>, n: nat)
      requires n <= |all| == |calls| && forall i :: 0 <= i < |calls| ==> all[i] == Failure("BATCH_NOT_STARTED")
      ensures Conducted(calls, all[..n], NOTHING) && !Wrote(parts.modifiesWorkspace, calls, all[..n], NOTHING)
      ensures NOTHING.ran == [] && NOTHING.executed == []
    {
      hide FinishNotAlone, DuplicateIds;
    }

    /** What the exception of a step leaves behind within a turn. */
    ghost predicate Broke(calls: seq<ToolCall>, results: seq<ToolResult>, trail: Trail)
      reads host`raised, host`struck, host`parsed, state`completion, state`blockedReason
      reads state`eventSequence, state`lastModified, state`changed, state`observations, state`latest
    {
      && host.raised.Some? && host.struck && !host.raised.value.BetweenTurns() && !host.raised.value.Announcing()
      && |results| == host.raised.value.Answered(|calls|)
      && (state.completion.Some? <==> host.raised == Some(CompletionEvent))
      && (state.completion.Some? ==>
            && FinishHandled(calls, trail) && |results| == 1 && results[0].ok && BlockedAsAsked()
            && state.completion == Some(Decide(state.blockedReason, state.Evidence())))
    }

    lemma HaltedBreaks(calls: seq<ToolCall>, results: seq<ToolResult>, trail: Trail)
      requires Halted(|results|, |calls|) && state.completion == None
      ensures Broke(calls, results, trail)
    {
    }

    lemma JudgedBreaks(batches: seq<Batch>, calls: seq<ToolCall>, batch: BatchOutcome, trail: Trail)
      requires host.struck && |batch.results| == |calls| && FinishClosed(calls, batch, trail)
      requires if host.raised == Some(CompletionEvent)
               then Stopped(batches, batch) && state.termination == Some(FinishTask)
               else host.raised == Some(RepeatEvent) && state.completion == None
      ensures Broke(calls, batch.results, trail)
    {
      hide FinishHandled, Decide;
    }

    /** Answer all calls of a response: run them, or tell them they were not started. */
    method AnswerCalls(calls: seq<ToolCall>, truncated: bool, ghost before: seq<Message>, ghost errors: nat, ghost seen: seq<Batch>)
      returns (over: bool, note: Option<string>, results: seq<ToolResult>, modified: bool, ghost trail: Trail)
      requires Wired() && Logged() && Clocked() && Quiet(seen) && Answered(before, errors, calls, []) && calls != []
      requires !host.stopAsked && host.raised == None
      modifies this`log, history, host`now, host`waited, host`executed, host`checks, host`parsed, host`stopAsked, host`raised, host`struck, progress
      modifies state`eventSequence, state`lastModified, state`changed, state`observations, state`latest
      modifies state`toolErrors, state`errorCodes, state`toolCalls
      modifies state`elapsed, state`termination, state`completion, state`blockedReason
      modifies state`consecutiveFailures, state`noProgress
      ensures Clocked() && state.toolCalls == old(state.toolCalls) + |calls|
      ensures Logged() && log == old(log) + trail.ran && host.executed == old(host.executed) + trail.executed
      ensures Answered(before, errors, calls, results) && Conducted(calls, results, trail)
      ensures modified == Wrote(parts.modifiesWorkspace, calls, results, trail)
      ensures host.raised.Some? ==> Broke(calls, results, trail)
      ensures host.raised == None ==>
                && |results| == |calls|
                && (host.stopAsked <==> state.termination == Some(Interrupted))
                && (!over ==> !host.stopAsked && NoteTold(note, state.noProgress, truncated))
                && (over ==> note == None && Closed(seen + [Batch(calls, results, modified)], calls, results, trail))
                && (!over ==> Quiet(seen + [Batch(calls, results, modified)]))
    {
      hide *;
      StillOpen(seen);
      state.toolCalls := state.toolCalls + |calls|;
      var cancelled := host.CancelRequested();
      var left := RemainingSeconds();
      if cancelled || left <= 0.0 {
        over, note, modified, trail := true, None, false, NOTHING;
        results := AnswerNotStarted(calls, cancelled, before, errors, seen);
        if host.raised.Some? {
          HaltedBreaks(calls, results, trail);
        }
        return;
      }
      ghost var prepared;
      var batch;
      batch, trail, prepared := ExecuteBatch(calls, before, errors);
      results, modified, over, note := batch.results, batch.modified, true, None;
      if host.raised.Some? {
        HaltedBreaks(calls, results, trail);
        return;
      }
      over, note := Judge(calls, batch, truncated, seen);
      if host.raised.Some? {
        JudgedBreaks(seen + [Batch(calls, results, modified)], calls, batch, trail);
        return;
      }
      if over {
        StoppedCloses(seen + [Batch(calls, results, modified)], calls, batch, trail);
      }
    }

    lemma StillOpen(batches: seq<Batch>)
      requires Quiet(batches)
      ensures state.completion == None && state.termination == None
    {
      hide FailuresCounted, RepeatsCounted;
    }

    method NotStarted(calls: seq<ToolCall>) returns (results: seq<ToolResult>)
      ensures |results| == |calls| && forall i :: 0 <= i < |calls| ==> results[i] == Failure("BATCH_NOT_STARTED")
    {
      results := [];
      while |results| < |calls|
        invariant |results| <= |calls| && forall i :: 0 <= i < |results| ==> results[i] == Failure("BATCH_NOT_STARTED")
      {
        results := results + [Failure("BATCH_NOT_STARTED")];
      }
    }

    lemma StoppedEarly(batches: seq<Batch>, calls: seq<ToolCall>, results: seq<ToolResult>)
      requires |results| == |calls| && forall i :: 0 <= i < |calls| ==> results[i] == Failure("BATCH_NOT_STARTED")
      requires state.termination in {Some(Interrupted), Some(MaxTime)} && state.completion == None
      requires state.termination == Some(MaxTime) ==> state.elapsed >= settings.maxSeconds
      ensures !Wrote(parts.modifiesWorkspace, calls, results, NOTHING)
      ensures Conducted(calls, results, NOTHING) && Closed(batches, calls, results, NOTHING)
      ensures NOTHING.ran == [] && NOTHING.executed == []
    {
      hide FinishNotAlone, DuplicateIds;
    }

    /** Add the model's response to the history. */
    method StartTurn(response: ModelResponse)
      requires history.Valid() && history.pending == multiset{} && LastKind(history.messages) in {AfterUser, AfterTool}
      modifies history, state`modelCalls
      ensures Answered(old(history.messages) + [Assistant(response)], state.toolErrors, response.calls, [])
      ensures state.modelCalls == old(state.modelCalls) + 1
    {
      hide Replay, CallIds;
      ghost var before := history.messages;
      var error := history.AddAssistant(response);
      assert error == None;
      state.modelCalls := state.modelCalls + 1;
      assert multiset{} + CallIds(response.calls) == CallIds(response.calls);
      assert response.calls[0..] == response.calls;
      assert before + [Assistant(response)] + [] == before + [Assistant(response)];
    }

    /** Record the response and announce its calls, each of which may raise. */
    method Announce(calls: seq<ToolCall>, truncated: bool)
      requires host.raised == None
      modifies host`raised, host`struck
      ensures host.raised.Some? ==> host.raised.value.Announcing() && (host.struck || !AllAnnounceable(parts, calls))
      ensures host.raised == None ==> AllAnnounceable(parts, calls)
    {
      hide Announceable;
      host.Take(ModelEvent, false);
      if host.raised.Some? {
        return;
      }
      for k := 0 to |calls|
        invariant host.raised == None && AllAnnounceable(parts, calls[..k])
      {
        host.Take(CallEvent(k), !Announceable(parts, calls[k]));
        if host.raised.Some? {
          return;
        }
      }
      assert calls[..|calls|] == calls;
      if truncated {
        host.Take(TruncationEvent, false);
      }
    }

    method AddNote(note: Option<string>)
      requires history.Valid() && history.pending == multiset{}
      requires note.Some? ==> LastKind(history.messages) in {AfterAssistant, AfterTool}
      modifies history
      ensures history.Valid() && history.pending == multiset{}
      ensures history.messages == old(history.messages) + if note.Some? then [User(note.value)] else []
      ensures LastKind(history.messages) == if note.Some? then AfterUser else LastKind(old(history.messages))
    {
      hide Replay;
      assert history.messages + [] == history.messages;
      if note.Some? {
        var error := history.AddUser(note.value);
        assert error == None;
      }
    }

    /** The second silent turn ends the run. */
    ghost predicate SilentlyOver(earlier: seq<Turn>)
      reads state`termination, state`completion
    {
      SilentTurns(earlier) == 1 && state.termination == Some(ModelStopped) && state.completion == None
    }

    /** A first response without tool calls is answered with a repair prompt, a second
        one ends the run. */
    method Repair(truncated: bool, ghost earlier: seq<Turn>) returns (over: bool, note: Option<string>)
      requires Repaired(earlier) && Quiet(BatchesOf(earlier)) && host.raised == None
      modifies host`raised, host`struck, state`protocolRepairs, state`termination
      ensures host.raised in {None, Some(RepairEvent)} && (host.raised.Some? ==> host.struck && !over && state.completion == None)
      ensures over ==> note == None && SilentlyOver(earlier) && state.termination == Some(ModelStopped)
      ensures !over ==> note == Some(if truncated then OUTPUT_TRUNCATED_MESSAGE else PROTOCOL_REPAIR_MESSAGE) && state.protocolRepairs == 1 && SilentTurns(earlier) == 0 && Quiet(BatchesOf(earlier))
    {
      hide FailuresCounted, RepeatsCounted, BatchesOf;
      if state.protocolRepairs == 0 {
        state.protocolRepairs := 1;
        host.Take(RepairEvent, false);
        return false, Some(if truncated then OUTPUT_TRUNCATED_MESSAGE else PROTOCOL_REPAIR_MESSAGE);
      }
      state.termination := Some(ModelStopped);
      return true, None;
    }

    /** All calls of the turn are answered: what the history looks like. */
    lemma AllAnswered(before: seq<Message>, errors: nat, calls: seq<ToolCall>, results: seq<ToolResult>)
      requires Answered(before, errors, calls, results) && |results| == |calls|
      ensures history.Valid() && history.pending == multiset{}
      ensures LastKind(history.messages) in {AfterAssistant, AfterTool}
      ensures calls != [] ==> LastKind(history.messages) == AfterTool
      ensures history.messages == before + ResultMessages(parts.render, calls, results)
      ensures state.toolErrors == errors + Failures(results)
    {
      hide Replay, Failures;
      assert calls[|results|..] == [];
    }

    lemma Assembled(earlier: seq<Turn>, t: Turn, before: seq<Message>)
      requires AllConducted(earlier) && TurnConducted(t) && turns == earlier + [t]
      requires ModificationsTold(parts.modifiesWorkspace, earlier)
      requires TurnsAnnounced(parts, earlier) && AllAnnounceable(parts, t.response.calls)
      requires t.modified == Wrote(parts.modifiesWorkspace, t.response.calls, t.results, t.trail)
      requires |t.results| == |t.response.calls|
      requires history.Valid() && history.pending == multiset{}
      requires before == [System(prompt), User(task)] + Transcript(parts.render, earlier)
      requires history.messages ==
               ((before + [Assistant(t.response)]) + ResultMessages(parts.render, t.response.calls, t.results)) +
               if t.note.Some? then [User(t.note.value)] else []
      requires Logged() && log == EventsOf(earlier) + t.trail.ran
      requires host.executed == ExecutedIn(earlier) + t.trail.executed
      requires state.modelCalls == |earlier| + 1 && state.toolCalls == CallCount(earlier) + |t.response.calls|
      requires state.toolErrors == ErrorCount(earlier) + Failures(t.results)
      ensures OnRecord()
    {
      hide TurnConducted, AllConducted, ModificationsTold, TurnsAnnounced, AllAnnounceable, Wrote, ResultMessages, Logged, Failures,
           Transcript, EventsOf, ExecutedIn, CallCount, ErrorCount, Replay;
      OneMoreTurn(parts.render, earlier, t);
      OneMoreTold(parts.modifiesWorkspace, earlier, t);
      OneMoreAnnounced(earlier, t);
      Regroup([System(prompt), User(task)], Transcript(parts.render, earlier), [Assistant(t.response)],
              ResultMessages(parts.render, t.response.calls, t.results), if t.note.Some? then [User(t.note.value)] else []);
    }

    lemma OneMoreAnnounced(earlier: seq<Turn>, t: Turn)
      requires TurnsAnnounced(parts, earlier) && AllAnnounceable(parts, t.response.calls)
      ensures TurnsAnnounced(parts, earlier + [t])
    {
      hide AllAnnounceable;
    }

    /** A run that is over, with everything it promises on record. */
    ghost predicate Over()
      reads this`log, this`turns, this`cut, this`built, this`asked, history, host, state, context, context.tokenBudget
    {
      && (if cut == None then OnRecord() else CutOnRecord()) && Bounded()
      && state.termination.Some?
      && (state.termination == Some(InternalError) <==> host.raised.Some?)
      && (host.raised.Some? && cut == None ==> host.raised.value.BetweenTurns() && state.completion == None)
      && (host.raised == None ==> cut == None)
      && (host.raised.Some? ==> host.struck || (cut.Some? && !AllAnnounceable(parts, cut.value.response.calls)))
      && (state.termination == Some(Interrupted) <==> host.stopAsked && host.raised == None)
      && (state.termination == Some(MaxTime) ==> state.elapsed >= settings.maxSeconds || NoTimeToRetry())
      && (state.termination == Some(ApiError) ==> Surrendered())
      && (state.termination == Some(FinishTask) ==> BlockedAsAsked())
      && (state.termination in {Some(MaxSteps), Some(InternalError)} ==> Measured())
      && (state.termination == Some(ContextBudgetExceeded) ==> NothingFitted())
      && RunEnds(settings, parts, turns, state.termination.value, state.completion, state.blockedReason)
    }

    /** Calls, attempts, retries and sleeps within their limits. */
    ghost predicate Bounded()
      reads host`now, host`slept, host`waited, host`exchanges
      reads state`startedAt, state`modelCalls, state`apiAttempts, state`apiRetries
    {
      && Clocked() && state.modelCalls <= settings.maxSteps
      && state.apiAttempts == |host.exchanges| <= settings.maxSteps * settings.maxApiAttempts
      && state.apiRetries <= state.apiAttempts - state.modelCalls
    }

    /** An exception is on its way out of the loop. */
    ghost predicate Thrown()
      reads this`log, this`turns, this`cut, history, host, state
    {
      && Bounded() && host.raised.Some?
      && (host.struck || (cut.Some? && !AllAnnounceable(parts, cut.value.response.calls)))
      && if cut == None then OnRecord() && host.raised.value.BetweenTurns() && state.completion == None
         else CutOnRecord()
    }

    /** What being on record says. */
    lemma OpenRecord()
      requires OnRecord()
      ensures AllConducted(turns) && ModificationsTold(parts.modifiesWorkspace, turns) && TurnsAnnounced(parts, turns)
      ensures history.Valid() && history.pending == multiset{}
      ensures history.messages == [System(prompt), User(task)] + Transcript(parts.render, turns)
      ensures Logged() && log == EventsOf(turns) && host.executed == ExecutedIn(turns)
      ensures state.modelCalls == |turns| && state.toolCalls == CallCount(turns) && state.toolErrors == ErrorCount(turns)
    {
      hide Logged, AllConducted, ModificationsTold, Transcript, EventsOf, ExecutedIn, CallCount, ErrorCount, Replay;
    }

    lemma SilentTurn(calls: seq<ToolCall>)
      requires calls == []
      ensures Conducted(calls, [], NOTHING) && NOTHING.ran == [] && NOTHING.executed == []
      ensures !Wrote(parts.modifiesWorkspace, calls, [], NOTHING)
    {
    }

    lemma ConductedTurn(t: Turn)
      requires |t.results| == |t.response.calls| && Conducted(t.response.calls, t.results, t.trail)
      ensures TurnConducted(t)
    {
    }

    lemma Products(a: nat, b: nat, m: nat)
      requires a <= b
      ensures a * m <= b * m
    {
    }

    lemma OverAfter(earlier: seq<Turn>, t: Turn)
      requires AllConducted(earlier) && TurnConducted(t) && turns == earlier + [t]
      requires OnRecord() && Clocked() && Requested(|turns|) && |turns| <= settings.maxSteps && Wired()
      requires state.termination == Some(Interrupted) <==> host.stopAsked
      requires cut == None && host.raised == None
      requires if t.response.calls == [] then SilentlyOver(earlier)
               else Closed(BatchesOf(earlier) + [Batch(t.response.calls, t.results, t.modified)],
                           t.response.calls, t.results, t.trail)
      ensures Over()
    {
      hide Logged, AllConducted, ModificationsTold, TurnConducted, Clocked, Transcript, Decide, FactsOf, ErrorCount, CallCount, ExecutedIn, EventsOf,
           LongestFailedSuffix, LongestRepeatedSuffix, BatchesOf, SilentTurns, FinishHandled, Replay;
      OneMoreTurn(parts.render, earlier, t);
      Products(|turns|, settings.maxSteps, settings.maxApiAttempts);
      LogIsEvidence();
    }

    lemma LogIsEvidence()
      requires Logged()
      ensures state.Evidence() == FactsOf(parts.normalize, log)
    {
      hide FactsOf;
    }

    lemma ReadyAfter(earlier: seq<Turn>, t: Turn)
      requires AllConducted(earlier) && TurnConducted(t) && turns == earlier + [t]
      requires OnRecord() && Clocked() && Requested(|turns|) && !host.stopAsked
      requires cut == None && host.raised == None
      requires LastKind(history.messages) in {AfterUser, AfterTool}
      requires if t.response.calls == []
               then state.protocolRepairs == 1 && SilentTurns(earlier) == 0 && Quiet(BatchesOf(earlier))
               else Repaired(earlier) && Quiet(BatchesOf(earlier) + [Batch(t.response.calls, t.results, t.modified)])
      ensures Ready()
    {
      hide OnRecord, Clocked, Requested, Quiet, AllConducted, TurnConducted, BatchesOf, SilentTurns, LastKind;
      OneMoreTurn(parts.render, earlier, t);
      assert BatchesOf(earlier) + [] == BatchesOf(earlier);
    }

    /** What a turn leaves before its note is added. */
    ghost predicate Settled(before: seq<Message>, t: Turn, over: bool)
      reads this`log, this`turns, this`cut, history, host, state, progress
    {
      && Clocked() && Requested(|turns| + 1) && |turns| < settings.maxSteps
      && AllConducted(turns) && |t.results| == |t.response.calls| && TurnConducted(t)
      && ModificationsTold(parts.modifiesWorkspace, turns) && cut == None && host.raised == None
      && TurnsAnnounced(parts, turns) && AllAnnounceable(parts, t.response.calls)
      && t.modified == Wrote(parts.modifiesWorkspace, t.response.calls, t.results, t.trail)
      && (if over then state.termination == Some(Interrupted) <==> host.stopAsked else !host.stopAsked)
      && before == [System(prompt), User(task)] + Transcript(parts.render, turns)
      && Answered(before + [Assistant(t.response)], ErrorCount(turns), t.response.calls, t.results)
      && Logged() && log == EventsOf(turns) + t.trail.ran && host.executed == ExecutedIn(turns) + t.trail.executed
      && state.modelCalls == |turns| + 1 && state.toolCalls == CallCount(turns) + |t.response.calls|
      && (over ==> t.note == None &&
                   if t.response.calls == [] then SilentlyOver(turns)
                   else Closed(BatchesOf(turns) + [Batch(t.response.calls, t.results, t.modified)],
                               t.response.calls, t.results, t.trail))
      && (!over ==> if t.response.calls == []
                    then t.note.Some? && state.protocolRepairs == 1 && SilentTurns(turns) == 0 && Quiet(BatchesOf(turns))
                    else Repaired(turns) && Quiet(BatchesOf(turns) + [Batch(t.response.calls, t.results, t.modified)]))
    }

    /** Add the note for the model, if any, and put the turn on record. */
    method CloseTurn(ghost t: Turn, note: Option<string>, ghost over: bool, ghost before: seq<Message>)
      requires Wired() && Settled(before, t, over) && t.note == note
      modifies this`turns, history
      ensures if over then Over() else Ready()
      ensures Grown(old(turns), t.response) && turns == old(turns) + [t]
    {
      hide Wired, Clocked, Requested, AllConducted, ModificationsTold, Wrote, TurnConducted, Transcript, Answered, ErrorCount, Logged, EventsOf, ExecutedIn, CallCount,
           SilentlyOver, Closed, BatchesOf, SilentTurns, Quiet, Repaired, OnRecord, Over, Ready, LastKind, ResultMessages, Replay;
      ghost var earlier := turns;
      AllAnswered(before + [Assistant(t.response)], ErrorCount(turns), t.response.calls, t.results);
      AddNote(note);
      turns := turns + [t];
      Assembled(earlier, t, before);
      if over {
        OverAfter(earlier, t);
      } else {
        ReadyAfter(earlier, t);
      }
    }

    /** What is known when an exception leaves a turn. */
    ghost predicate TornOff(before: seq<Message>, c: Cut)
      reads this`log, this`turns, history, host, state
    {
      && Clocked() && Requested(|turns| + 1) && |turns| < settings.maxSteps
      && AllConducted(turns) && ModificationsTold(parts.modifiesWorkspace, turns) && TurnsAnnounced(parts, turns)
      && before == [System(prompt), User(task)] + Transcript(parts.render, turns)
      && Answered(before + [Assistant(c.response)], ErrorCount(turns), c.response.calls, c.results)
      && Logged() && log == EventsOf(turns) + c.trail.ran && host.executed == ExecutedIn(turns) + c.trail.executed
      && state.modelCalls == |turns| + 1 && CutShortBy(c)
      && state.toolCalls == CallCount(turns) + if host.raised.value.Announcing() then 0 else |c.response.calls|
    }

    /** Put on record how far the turn got. */
    method CutTurn(ghost c: Cut, ghost before: seq<Message>)
      requires Wired() && TornOff(before, c)
      modifies this`cut
      ensures Thrown() && Grown(turns, c.response)
    {
      hide Clocked, AllConducted, ModificationsTold, TurnsAnnounced, Transcript, Answered, Logged, EventsOf, ExecutedIn, CallCount,
           ErrorCount, CutShortBy;
      cut := Some(c);
      Products(|turns| + 1, settings.maxSteps, settings.maxApiAttempts);
      RaisedWithin(c);
    }

    lemma RaisedWithin(c: Cut)
      requires CutShortBy(c)
      ensures host.raised.Some? && (host.struck || !AllAnnounceable(parts, c.response.calls))
    {
    }

    lemma AnnouncingCuts(c: Cut)
      requires host.raised.Some? && host.raised.value.Announcing() && state.completion == None
      requires c.results == [] && c.trail == NOTHING && (host.struck || !AllAnnounceable(parts, c.response.calls))
      ensures CutShortBy(c) && NOTHING.ran == [] && NOTHING.executed == []
    {
      hide FinishNotAlone, DuplicateIds;
    }

    lemma BrokenCuts(c: Cut)
      requires Broke(c.response.calls, c.results, c.trail) && Conducted(c.response.calls, c.results, c.trail)
      requires AllAnnounceable(parts, c.response.calls)
      ensures CutShortBy(c) && host.raised.Some? && !host.raised.value.Announcing()
    {
      hide Conducted, AllAnnounceable, Decide, FinishHandled;
    }

    /** The state in which a response is put on record. */
    ghost predicate Answerable()
      reads this, history, host, state, progress
    {
      && OnRecord() && Clocked() && Quiet(BatchesOf(turns)) && Repaired(turns) && Requested(|turns| + 1)
      && LastKind(history.messages) in {AfterUser, AfterTool} && !host.stopAsked && cut == None && host.raised == None
    }

    lemma AnswerableMeans()
      requires Answerable()
      ensures OnRecord() && Clocked() && Quiet(BatchesOf(turns)) && Repaired(turns) && Requested(|turns| + 1)
      ensures LastKind(history.messages) in {AfterUser, AfterTool} && !host.stopAsked && cut == None && host.raised == None
    {
      hide OnRecord, Clocked, Quiet, BatchesOf, Repaired, Requested, LastKind;
    }

    lemma NowAnswerable()
      requires OnRecord() && Clocked() && Quiet(BatchesOf(turns)) && Repaired(turns) && Requested(|turns| + 1)
      requires LastKind(history.messages) in {AfterUser, AfterTool} && !host.stopAsked && cut == None && host.raised == None
      ensures Answerable()
    {
      hide OnRecord, Clocked, Quiet, BatchesOf, Repaired, Requested, LastKind;
    }

    /** The response is recorded and its calls are announced; none is answered yet. */
    ghost predicate Opened(before: seq<Message>, response: ModelResponse)
      reads this`log, this`turns, this`cut, history, host, state, progress
    {
      && Clocked() && Requested(|turns| + 1) && |turns| < settings.maxSteps
      && AllConducted(turns) && ModificationsTold(parts.modifiesWorkspace, turns) && TurnsAnnounced(parts, turns)
      && before == [System(prompt), User(task)] + Transcript(parts.render, turns)
      && Answered(before + [Assistant(response)], ErrorCount(turns), response.calls, [])
      && Logged() && log == EventsOf(turns) && host.executed == ExecutedIn(turns)
      && state.modelCalls == |turns| + 1 && state.toolCalls == CallCount(turns)
      && Quiet(BatchesOf(turns)) && Repaired(turns) && AllAnnounceable(parts, response.calls)
      && !host.stopAsked && cut == None && host.raised == None
    }

    /** Record the response and announce its calls. */
    method OpenTurn(response: ModelResponse)
      requires Wired() && Answerable() && |turns| < settings.maxSteps
      modifies this`cut, history, host`raised, host`struck, state`modelCalls
      ensures host.raised.Some? ==> Thrown() && Grown(turns, response)
      ensures host.raised == None ==> Opened(old(history.messages), response)
    {
      hide *;
      AnswerableMeans();
      OpenRecord();
      StillOpen(BatchesOf(turns));
      ghost var before := history.messages;
      StartTurn(response);
      Announce(response.calls, response.finishReason == Some("length"));
      if host.raised.Some? {
        AnnouncingCuts(Cut(response, [], NOTHING));
        TornAtOnce(before, response);
        CutTurn(Cut(response, [], NOTHING), before);
      } else {
        NowOpened(before, response);
      }
    }

    lemma NowOpened(before: seq<Message>, response: ModelResponse)
      requires Clocked() && Requested(|turns| + 1) && |turns| < settings.maxSteps
      requires AllConducted(turns) && ModificationsTold(parts.modifiesWorkspace, turns) && TurnsAnnounced(parts, turns)
      requires before == [System(prompt), User(task)] + Transcript(parts.render, turns)
      requires Answered(before + [Assistant(response)], ErrorCount(turns), response.calls, [])
      requires Logged() && log == EventsOf(turns) && host.executed == ExecutedIn(turns)
      requires state.modelCalls == |turns| + 1 && state.toolCalls == CallCount(turns)
      requires Quiet(BatchesOf(turns)) && Repaired(turns) && AllAnnounceable(parts, response.calls)
      requires !host.stopAsked && cut == None && host.raised == None
      ensures Opened(before, response)
    {
      hide Clocked, Requested, AllConducted, ModificationsTold, TurnsAnnounced, Transcript, Answered, Logged, EventsOf, ExecutedIn,
           CallCount, ErrorCount, Quiet, BatchesOf, Repaired, AllAnnounceable;
    }

    lemma TornAtOnce(before: seq<Message>, response: ModelResponse)
      requires Clocked() && Requested(|turns| + 1) && |turns| < settings.maxSteps
      requires AllConducted(turns) && ModificationsTold(parts.modifiesWorkspace, turns) && TurnsAnnounced(parts, turns)
      requires before == [System(prompt), User(task)] + Transcript(parts.render, turns)
      requires Answered(before + [Assistant(response)], ErrorCount(turns), response.calls, [])
      requires Logged() && log == EventsOf(turns) && host.executed == ExecutedIn(turns)
      requires state.modelCalls == |turns| + 1 && state.toolCalls == CallCount(turns)
      requires host.raised.Some? && host.raised.value.Announcing() && CutShortBy(Cut(response, [], NOTHING))
      ensures TornOff(before, Cut(response, [], NOTHING))
    {
      hide Clocked, Requested, AllConducted, ModificationsTold, TurnsAnnounced, Transcript, Answered, Logged, EventsOf, ExecutedIn,
           CallCount, ErrorCount, CutShortBy;
    }

    /** The note of the newest turn is the one that was due. */
    ghost predicate Noted(response: ModelResponse)
      reads this`turns, state`noProgress
    {
      && turns != []
      && var note, truncated := turns[|turns| - 1].note, response.finishReason == Some("length");
         if response.calls == [] then note == Some(if truncated then OUTPUT_TRUNCATED_MESSAGE else PROTOCOL_REPAIR_MESSAGE)
         else NoteTold(note, state.noProgress, truncated)
    }

    /** A turn without calls. */
    method TakeSilentTurn(response: ModelResponse, ghost before: seq<Message>) returns (over: bool)
      requires Wired() && Opened(before, response) && response.calls == []
      modifies this`turns, this`cut, history, host`raised, host`struck, state`protocolRepairs, state`termination
      ensures host.raised.Some? ==> Thrown()
      ensures host.raised == None ==> if over then Over() else Ready() && Noted(response)
      ensures Grown(old(turns), response)
    {
      hide Wired, Clocked, Requested, AllConducted, ModificationsTold, TurnsAnnounced, AllAnnounceable, Wrote, TurnConducted, Conducted,
           Transcript, Answered, ErrorCount, Logged, EventsOf, ExecutedIn, CallCount, SilentlyOver, Closed, BatchesOf, SilentTurns,
           Quiet, Repaired, OnRecord, Over, Ready, Thrown, CutShortBy, TornOff;
      var note;
      over, note := Repair(response.finishReason == Some("length"), turns);
      SilentTurn(response.calls);
      if host.raised.Some? {
        AnnouncingCuts(Cut(response, [], NOTHING));
        TornAtOnce(before, response);
        CutTurn(Cut(response, [], NOTHING), before);
        return;
      }
      ghost var t := Turn(response, [], NOTHING, false, note);
      ConductedTurn(t);
      CloseTurn(t, note, over, before);
    }

    /** A turn with calls. */
    method TakeCallTurn(response: ModelResponse, ghost before: seq<Message>) returns (over: bool)
      requires Wired() && Opened(before, response) && response.calls != []
      modifies this`log, this`turns, this`cut, history, progress
      modifies host`now, host`waited, host`executed, host`checks, host`parsed, host`stopAsked, host`raised, host`struck
      modifies state`eventSequence, state`lastModified, state`changed, state`observations, state`latest
      modifies state`toolErrors, state`errorCodes, state`toolCalls
      modifies state`elapsed, state`termination, state`completion, state`blockedReason
      modifies state`consecutiveFailures, state`noProgress
      ensures host.raised.Some? ==> Thrown()
      ensures host.raised == None ==> if over then Over() else Ready() && Noted(response)
      ensures Grown(old(turns), response)
    {
      hide Wired, Clocked, Requested, AllConducted, ModificationsTold, TurnsAnnounced, AllAnnounceable, Wrote, TurnConducted, Conducted,
           Transcript, Answered, ErrorCount, Logged, EventsOf, ExecutedIn, CallCount, SilentlyOver, Closed, BatchesOf, SilentTurns,
           Quiet, Repaired, OnRecord, Over, Ready, Thrown, CutShortBy, Broke;
      var note, results, modified;
      ghost var trail;
      over, note, results, modified, trail :=
        AnswerCalls(response.calls, response.finishReason == Some("length"), before + [Assistant(response)], ErrorCount(turns), BatchesOf(turns));
      if host.raised.Some? {
        BrokenCuts(Cut(response, results, trail));
        CutTurn(Cut(response, results, trail), before);
        return;
      }
      ghost var t := Turn(response, results, trail, modified, note);
      ConductedTurn(t);
      CloseTurn(t, note, over, before);
    }

    /** One turn: record the response, answer every call, decide whether to go on. */
    method TakeTurn(response: ModelResponse) returns (over: bool)
      requires Wired() && Answerable() && |turns| < settings.maxSteps
      modifies this`log, this`turns, this`cut, history, progress
      modifies host`now, host`waited, host`executed, host`checks, host`parsed, host`stopAsked, host`raised, host`struck
      modifies state`eventSequence, state`lastModified, state`changed, state`observations, state`latest
      modifies state`toolErrors, state`errorCodes, state`toolCalls, state`modelCalls, state`protocolRepairs
      modifies state`elapsed, state`termination, state`completion, state`blockedReason
      modifies state`consecutiveFailures, state`noProgress
      ensures host.raised.Some? ==> Thrown()
      ensures host.raised == None ==> if over then Over() else Ready() && Noted(response)
      ensures Grown(old(turns), response)
    {
      hide *;
      ghost var before := history.messages;
      AnswerableMeans();
      OpenTurn(response);
      if host.raised.Some? {
        return true;
      }
      if response.calls == [] {
        over := TakeSilentTurn(response, before);
      } else {
        over := TakeCallTurn(response, before);
      }
    }

    function CurrentSummary(): Summary
      reads state`eventSequence, state`lastModified, state`changed, state`observations, state`latest
      reads state`apiAttempts, state`apiRetries, state`consecutiveFailures, state`noProgress, state`errorCodes
    {
      Summary(state.Evidence(), state.apiAttempts, state.apiRetries, state.consecutiveFailures, state.noProgress, state.errorCodes)
    }

    /** The newest view was made with the evidence and the counters as they stand. */
    ghost predicate BuiltNow()
      reads this`built
      reads state`eventSequence, state`lastModified, state`changed, state`observations, state`latest
      reads state`apiAttempts, state`apiRetries, state`consecutiveFailures, state`noProgress, state`errorCodes
    {
      && built.facts == state.Evidence() && built.errorCodes == state.errorCodes
      && built.apiAttempts == state.apiAttempts && built.apiRetries == state.apiRetries
      && built.consecutiveFailures == state.consecutiveFailures && built.noProgress == state.noProgress
    }

    /** The view shows the history with the right number of groups left out, or even the
        smallest view is too big. */
    ghost predicate RightView(r: Option<View>)
      requires context.Valid() && |history.messages| >= 2
      reads this`built, history, context, context.tokenBudget
    {
      var sizes := ViewSizes(history.messages, parts.requestBytes, SummaryOf(parts, built));
      match r
      case None => context.NothingFits(sizes)
      case Some(view) =>
        && Shows(history.messages, parts.summarize(built, view.removed), view.removed, view.messages)
        && Complete(view.messages)
        && view.removed < |sizes| && context.RightCount(sizes, view.removed)
        && view.byteCount == parts.requestBytes(view.messages) == sizes[view.removed] <= context.EffectiveBudget()
    }

    /** No view of the history as it stands met the target, and the smallest one exceeded
        the budget, with the state as it is but for the error code this left behind. */
    ghost predicate NothingFitted()
      reads this`built, history, context, context.tokenBudget
      reads state`eventSequence, state`lastModified, state`changed, state`observations, state`latest
      reads state`apiAttempts, state`apiRetries, state`consecutiveFailures, state`noProgress, state`errorCodes
    {
      && context.Valid() && |history.messages| >= 2 && RightView(None)
      && CurrentSummary() == built.(errorCodes := WithErrorCode(built.errorCodes, CONTEXT_BUDGET_CODE))
    }

    lemma NoViewMeans()
      requires context.Valid() && |history.messages| >= 2 && RightView(None)
      requires CurrentSummary() == built.(errorCodes := WithErrorCode(built.errorCodes, CONTEXT_BUDGET_CODE))
      ensures NothingFitted()
    {
      hide RightView;
    }

    /** Reduce the history to a view that fits; every view is itself a complete history. */
    method BuildView() returns (r: Option<View>)
      requires history.Valid() && history.pending == multiset{} && |history.messages| >= 2 && context.Valid()
      requires host.raised == None && state.elapsed < settings.maxSeconds
      modifies this`built, host`raised, host`struck, state`compactions, state`compressedGroups, state`errorCodes
      ensures host.raised in {None, Some(Measuring), Some(CompactionEvent)} && (host.raised.Some? ==> host.struck)
      ensures host.raised == None ==> RightView(r) && (r == None ==> NothingFitted())
      ensures host.raised == None && r.Some? ==> BuiltNow()
      ensures host.raised == None && r.Some? ==>
                if r.value.removed > old(state.compressedGroups)
                then state.compressedGroups == r.value.removed && state.compactions == old(state.compactions) + 1
                else state.compressedGroups == old(state.compressedGroups) && state.compactions == old(state.compactions)
    {
      hide *;
      host.Take(Measuring, false);
      if host.raised.Some? {
        return None;
      }
      r := ChooseView();
      SummaryBuilt();
      if r == None {
        RecordBudgetCode();
      } else if r.value.removed > state.compressedGroups {
        state.compressedGroups, state.compactions := r.value.removed, state.compactions + 1;
        host.Take(CompactionEvent, false);
      }
    }

    lemma SummaryBuilt()
      requires built == CurrentSummary()
      ensures BuiltNow()
    {
    }

    method RecordBudgetCode()
      requires context.Valid() && |history.messages| >= 2 && RightView(None) && built == CurrentSummary()
      modifies state`errorCodes
      ensures NothingFitted()
    {
      hide RightView, WithErrorCode;
      state.RecordErrorCode(CONTEXT_BUDGET_CODE);
      NoViewMeans();
    }

    method ChooseView() returns (r: Option<View>)
      requires history.Valid() && history.pending == multiset{} && |history.messages| >= 2 && context.Valid()
      modifies this`built
      ensures RightView(r) && built == CurrentSummary()
    {
      hide Complete, ViewSizes, Assemble, Shows, Replay;
      built := CurrentSummary();
      var view := context.Build(history, parts.requestBytes, SummaryOf(parts, CurrentSummary()));
      r := if view.Ok? then Some(view.value) else None;
    }

    /** The record stands when the run stops between two turns. */
    lemma OverBetween(calls: nat)
      requires Wired() && OnRecord() && Clocked() && calls == |turns| <= settings.maxSteps
      requires state.apiAttempts == |host.exchanges| && state.apiAttempts <= settings.maxSteps * settings.maxApiAttempts
      requires state.apiRetries <= state.apiAttempts - calls
      requires state.completion == None
      requires state.termination in {Some(Interrupted), Some(MaxTime), Some(ApiError), Some(ContextBudgetExceeded)} ||
               (state.termination == Some(MaxSteps) && |turns| == settings.maxSteps)
      requires state.termination == Some(Interrupted) <==> host.stopAsked
      requires cut == None && host.raised == None
      requires state.termination == Some(MaxSteps) ==> Measured()
      requires state.termination == Some(MaxTime) ==> state.elapsed >= settings.maxSeconds || NoTimeToRetry()
      requires state.termination == Some(ApiError) ==> Surrendered()
      requires state.termination == Some(ContextBudgetExceeded) ==> NothingFitted()
      ensures Over()
    {
      hide Surrendered, NoTimeToRetry, NothingFitted, ModificationsTold, Clocked, Logged, AllConducted, Transcript, EventsOf, ExecutedIn, CallCount, ErrorCount, Replay;
    }

    /** What being ready says about the counters. */
    lemma ReadyMeans()
      requires Ready() && |turns| <= settings.maxSteps
      ensures OnRecord() && Clocked() && Requested(|turns|) && Quiet(BatchesOf(turns)) && Repaired(turns)
      ensures history.Valid() && history.pending == multiset{} && |history.messages| >= 2
      ensures LastKind(history.messages) in {AfterUser, AfterTool}
      ensures state.completion == None && state.termination == None
      ensures state.modelCalls == |turns|
      ensures state.apiAttempts == |host.exchanges| && state.apiAttempts <= |turns| * settings.maxApiAttempts
      ensures state.apiAttempts <= settings.maxSteps * settings.maxApiAttempts
      ensures state.apiRetries == state.apiAttempts - |turns| && !host.stopAsked
      ensures cut == None && host.raised == None
    {
      hide ModificationsTold, Clocked, Logged, AllConducted, Transcript, EventsOf, ExecutedIn, CallCount, ErrorCount, BatchesOf,
           FailuresCounted, RepeatsCounted, LastKind, Replay;
      Products(|turns|, settings.maxSteps, settings.maxApiAttempts);
    }

    /** One more request keeps the request counters within their bounds. */
    lemma AfterRequest(attempts: nat, retries: nat, a: nat, r: nat, answered: bool)
      requires attempts <= |turns| * settings.maxApiAttempts && retries == attempts - |turns| && |turns| < settings.maxSteps
      requires a <= settings.maxApiAttempts && r <= a && (answered ==> r == a - 1)
      requires state.apiAttempts == |host.exchanges| == attempts + a && state.apiRetries == retries + r
      ensures state.apiAttempts <= settings.maxSteps * settings.maxApiAttempts
      ensures state.apiRetries <= state.apiAttempts - |turns|
      ensures answered ==> Requested(|turns| + 1)
    {
      assert (|turns| + 1) * settings.maxApiAttempts == |turns| * settings.maxApiAttempts + settings.maxApiAttempts;
      Products(|turns| + 1, settings.maxSteps, settings.maxApiAttempts);
    }

    /** End a ready run between two turns. */
    method Stop(reason: TerminationReason)
      requires Wired() && OnRecord() && Clocked() && |turns| <= settings.maxSteps && state.completion == None
      requires state.apiAttempts == |host.exchanges| && state.apiAttempts <= settings.maxSteps * settings.maxApiAttempts
      requires state.apiRetries <= state.apiAttempts - |turns|
      requires reason in {Interrupted, MaxTime, ContextBudgetExceeded} || (reason == MaxSteps && |turns| == settings.maxSteps)
      requires reason == Interrupted <==> host.stopAsked
      requires cut == None && host.raised == None
      requires reason == MaxSteps ==> Measured()
      requires reason == MaxTime ==> state.elapsed >= settings.maxSeconds
      requires reason == ContextBudgetExceeded ==> NothingFitted()
      modifies state`termination
      ensures Over()
    {
      hide *;
      state.termination := Some(reason);
      OverBetween(|turns|);
    }

    /** Between two turns an exception leaves the record as it is. */
    lemma ThrownBetween()
      requires Wired() && OnRecord() && Clocked() && |turns| <= settings.maxSteps && cut == None && state.completion == None
      requires host.raised.Some? && host.struck && host.raised.value.BetweenTurns()
      requires state.apiAttempts == |host.exchanges| && state.apiAttempts <= settings.maxSteps * settings.maxApiAttempts
      requires state.apiRetries <= state.apiAttempts - |turns|
      ensures Thrown()
    {
      hide Clocked, Logged, AllConducted, ModificationsTold, TurnsAnnounced, Transcript, EventsOf, ExecutedIn, CallCount, ErrorCount, Replay;
    }

    lemma StepsBetween()
      requires host.raised in {Some(Measuring), Some(CompactionEvent), Some(Requesting), Some(RetryEvent)}
      ensures host.raised.Some? && host.raised.value.BetweenTurns()
    {
    }

    /** What a request says about a view that was built of the history as it stands. */
    ghost function AskingFor(view: View): (a: Asking)
      reads this`turns, this`built, context, context.tokenBudget
      requires context.Valid()
      ensures a.turn == |turns|
    {
      Asking(|turns|, built, context.EffectiveBudget(), context.TargetBytes(), view.removed)
    }

    lemma QuietMeans()
      requires Quiet(BatchesOf(turns))
      ensures FailuresCounted(BatchesOf(turns))
    {
      hide LongestFailedSuffix, RepeatsCounted, BatchesOf;
    }

    lemma ViewIsAsked(view: View)
      requires OnRecord() && context.Valid() && |history.messages| >= 2 && RightView(Some(view))
      requires BuiltNow() && FailuresCounted(BatchesOf(turns))
      ensures AskedRightly(turns, AskingFor(view), view.messages)
    {
      hide Shows, Complete, ViewSizes, SummaryOf, BestCount, WholePart, Transcript, AllConducted, TurnsAnnounced, ModificationsTold,
           FactsOf, EventsOf, BatchesOf, LongestFailedSuffix, ExecutedIn, CallCount, ErrorCount, Replay;
      assert turns[..|turns|] == turns;
      assert history.messages == Told(turns);
      var a := AskingFor(view);
      assert a.summary.facts == FactsOf(parts.normalize, EventsOf(turns));
      assert FitsBest(Told(turns), a, view.messages);
    }

    /** Ask the model for its next response, or end the run. */
    method AskModel() returns (response: Option<ModelResponse>)
      requires Wired() && Ready() && context.Valid() && |turns| < settings.maxSteps
      requires Conversed() && CaughtUp(|turns|, asked)
      modifies host`now, host`slept, host`exchanges, host`stopAsked, host`raised, host`struck, context.tokenBudget
      modifies this`built, this`asked, state`elapsed, state`apiAttempts, state`apiRetries, state`errorCodes, state`termination
      modifies state`compactions, state`compressedGroups
      ensures context.Valid() && cut == None
      ensures Conversed() && (response.Some? ==> Awaited(turns, response.value, asked, host.exchanges))
      ensures host.raised.Some? ==> response == None && Thrown()
      ensures host.raised == None && response == None ==> Over()
      ensures response.Some? ==> Answerable()
    {
      hide *;
      ReadyMeans();
      var cancelled := host.CancelRequested();
      var left := RemainingSeconds();
      if cancelled || left <= 0.0 {
        Stop(if cancelled then Interrupted else MaxTime);
        return None;
      }
      var view := BuildView();
      if host.raised.Some? {
        StepsBetween();
        ThrownBetween();
        return None;
      }
      if view == None {
        Stop(ContextBudgetExceeded);
        return None;
      }
      QuietMeans();
      ViewIsAsked(view.value);
      response := AskWith(view.value);
    }

    /** Send a view that fits. */
    method AskWith(view: View) returns (response: Option<ModelResponse>)
      requires Wired() && OnRecord() && Clocked() && Requested(|turns|) && Quiet(BatchesOf(turns)) && Repaired(turns)
      requires LastKind(history.messages) in {AfterUser, AfterTool} && !host.stopAsked && cut == None && host.raised == None
      requires state.completion == None && state.termination == None && state.modelCalls == |turns| < settings.maxSteps
      requires state.apiAttempts == |host.exchanges| && state.apiAttempts <= |turns| * settings.maxApiAttempts
      requires state.apiRetries == state.apiAttempts - |turns|
      requires Conversed() && CaughtUp(|turns|, asked)
      requires context.Valid() && AskedRightly(turns, AskingFor(view), view.messages)
      modifies this`asked, host`now, host`slept, host`exchanges, host`stopAsked, host`raised, host`struck, context.tokenBudget
      modifies state`elapsed, state`apiAttempts, state`apiRetries, state`errorCodes, state`termination
      ensures context.Valid()
      ensures context.tokenBudget != null ==>
                if response.Some? && response.value.usage.Some?
                then Calibrates(old(context.tokenBudget.bytesPerToken), view.byteCount, response.value.usage.value.promptTokens,
                                context.tokenBudget.bytesPerToken)
                else context.tokenBudget.bytesPerToken == old(context.tokenBudget.bytesPerToken)
      ensures Conversed() && (response.Some? ==> Awaited(turns, response.value, asked, host.exchanges))
      ensures host.raised.Some? ==> response == None && Thrown()
      ensures host.raised == None && response == None ==> Over()
      ensures response.Some? ==> Answerable()
    {
      hide *;
      ghost var attempts, retries := state.apiAttempts, state.apiRetries;
      ghost var asked0, exchanges0 := asked, host.exchanges;
      ghost var a := AskingFor(view);
      HeardSoFar();
      SendsView(a, view.messages);
      response := RequestModel(view.messages, a);
      SentAgain(asked0, exchanges0, a, view.messages);
      AfterRequest(attempts, retries, state.apiAttempts - attempts, state.apiRetries - retries, response.Some?);
      if host.raised.Some? {
        StepsBetween();
        ThrownBetween();
        return;
      }
      if response == None {
        OverBetween(|turns|);
        return;
      }
      NowAnswerable();
      if response.value.usage.Some? {
        context.ObserveUsage(view.byteCount, response.value.usage.value.promptTokens);
      }
    }

    lemma HeardSoFar()
      requires Conversed() && cut == None
      ensures Heard(Responses(turns), asked, host.exchanges) && |asked| == |host.exchanges|
      ensures forall k :: 0 <= k < |asked| ==> AskedRightly(turns, asked[k], host.exchanges[k].request)
    {
      hide AskedRightly;
      assert Responses(turns) + [] == Responses(turns);
    }

    lemma SendsView(a: Asking, view: seq<Message>)
      requires AskedRightly(turns, a, view)
      ensures Complete(view)
    {
    }

    /** An exception ends the run as an internal error; what was recorded stands. */
    method Catch()
      requires Wired() && Thrown()
      modifies host`now, state`elapsed, state`errorCodes, state`termination
      ensures Over() && state.errorCodes == WithErrorCode(old(state.errorCodes), "INTERNAL_ERROR")
    {
      hide OnRecord, CutOnRecord, Clocked, Measured, Surrendered, NoTimeToRetry, NothingFitted, BlockedAsAsked, WithErrorCode;
      var _ := RemainingSeconds();
      state.RecordErrorCode("INTERNAL_ERROR");
      state.termination := Some(InternalError);
    }

    /** Run to the end. Every request carried the view that was right at its time, and every
        response on record is the reply to the last of its requests. The run always ends,
        with every call answered in order on the record,
        whatever the model, the tools, the clock and the cancel request do, unless a step
        raises; then the record says which, and how far the calls of that response got. */
    method Run()
      requires Wired() && Ready() && turns == [] && context.Valid() && Conversed() && CaughtUp(0, asked)
      modifies this`log, this`turns, this`cut, this`built, this`asked, history, host, state, progress, context.tokenBudget
      ensures Over() && Conversed()
    {
      hide *;
      ReadyMeans();
      while state.modelCalls < settings.maxSteps
        invariant Ready() && Wired() && context.Valid() && state.modelCalls == |turns| <= settings.maxSteps
        invariant Conversed() && CaughtUp(|turns|, asked)
        decreases settings.maxSteps - |turns|
      {
        var response := AskModel();
        if host.raised.Some? {
          Catch();
          return;
        }
        if response == None {
          return;
        }
        ghost var before := turns;
        var over := TakeTurn(response.value);
        TurnHeard(before, response.value);
        if host.raised.Some? {
          Catch();
          return;
        }
        if over {
          return;
        }
        ReadyMeans();
      }
      ReadyMeans();
      var _ := RemainingSeconds();
      Stop(MaxSteps);
    }

    // ----- which calls are answered -----

    /** Call `i` of the last response has its result in the history exactly when no step
        before that result raised. */
    lemma AnsweredExactly(i: nat)
      requires Over() && cut.Some? && i < |cut.value.response.calls|
      ensures AllConducted(turns)
      ensures var base := 3 + |Transcript(parts.render, turns)|;
              && (base + i < |history.messages| <==> !host.raised.value.Precedes(i))
              && (base + i < |history.messages| ==>
                    && i < |cut.value.results|
                    && history.messages[base + i] ==
                       ResultMessage(parts.render, cut.value.response.calls[i], cut.value.results[i]))
    {
      hide Bounded, RunEnds, Conducted, AllAnnounceable, Logged, AllConducted, TurnsAnnounced, ModificationsTold, Replay, Transcript;
      var before := [System(prompt), User(task)] + Transcript(parts.render, turns) + [Assistant(cut.value.response)];
      var told := ResultMessages(parts.render, cut.value.response.calls, cut.value.results);
      assert history.messages == before + told && |before| == 3 + |Transcript(parts.render, turns)|;
      if i < |told| {
        assert (before + told)[|before| + i] == told[i];
      }
    }

    lemma ResultsExactly(i: nat)
      requires Over() && cut.Some? && i < |cut.value.response.calls|
      ensures i < |cut.value.results| <==> !host.raised.value.Precedes(i)
    {
      hide OnRecord, Bounded, RunEnds, Conducted, AllAnnounceable, Answered, Logged, AllConducted, TurnsAnnounced, ModificationsTold;
    }

    /** At the end every call of the run is answered exactly when no step raised before
        the result of a call of the last response. */
    lemma EveryCallAnsweredExactly()
      requires Over()
      ensures history.Valid()
      ensures history.pending == multiset{} <==>
              cut == None || forall i: nat :: i < |cut.value.response.calls| ==> !host.raised.value.Precedes(i)
    {
      hide Bounded, RunEnds, Logged, AllConducted, TurnsAnnounced, ModificationsTold, Replay, CallIds, Transcript;
      if cut.Some? {
        var calls, n := cut.value.response.calls, |cut.value.results|;
        NoIdsNoCalls(calls[n..]);
        forall i: nat | i < |calls| ensures i < n <==> !host.raised.value.Precedes(i) {
          ResultsExactly(i);
        }
        assert n == |calls| || (n < |calls| && host.raised.value.Precedes(n));
        assert history.pending == CallIds(calls[n..]);
      }
    }

    lemma NoIdsNoCalls(calls: seq<ToolCall>)
      ensures CallIds(calls) == multiset{} <==> calls == []
    {
      if calls != [] {
        assert calls[|calls| - 1].id in CallIds(calls);
      }
    }

    /** When no step raises of its own accord, a run ends by an internal error exactly for a
        response with a call that cannot be announced. */
    lemma OnlyUnannounceableCalls()
      requires Over() && !host.struck
      ensures state.termination == Some(InternalError) <==>
              cut.Some? && exists k :: 0 <= k < |cut.value.response.calls| && !Announceable(parts, cut.value.response.calls[k])
    {
      hide OnRecord, CutOnRecord, Bounded, RunEnds, Announceable;
    }

    /** A response with a call that cannot be announced: no call of it is executed or
        answered, and the run is over. */
    lemma UnannounceableEndsRun(k: nat)
      requires Over() && cut.Some? && k < |cut.value.response.calls|
      requires !Announceable(parts, cut.value.response.calls[k])
      ensures state.termination == Some(InternalError) && cut.value.results == [] && cut.value.trail == NOTHING
      ensures history.pending == CallIds(cut.value.response.calls)
      ensures host.executed == ExecutedIn(turns)
    {
      hide Bounded, RunEnds, Logged, AllConducted, TurnsAnnounced, ModificationsTold, Replay, CallIds, Transcript, Announceable, Conducted;
      assert cut.value.response.calls[0..] == cut.value.response.calls;
    }
  }

  /** A `run_command` call with the arguments `{"argv": ["\ud800"]}` cannot be announced. */
  lemma SurrogateCall(parts: Parts, call: ToolCall)
    requires EventPayload.Tame(parts.texts) && EventPayload.ShowsCalls(parts.texts) && call.name == "run_command"
    requires parts.texts.decode(EventPayload.CodePoints(call.arguments)) ==
             EventPayload.Fields([EventPayload.Field(EventPayload.CodePoints("argv"),
                                                     EventPayload.Array([EventPayload.String([0xD800])]))])
    requires !parts.texts.leftOut(EventPayload.CodePoints("argv"), EventPayload.Array([EventPayload.String([0xD800])]))
    requires parts.texts.redact([0xD800]) == [0xD800]
    ensures !Announceable(parts, call)
  {
    hide *;
    EventPayload.SurrogateArgument(parts.texts, EventPayload.CodePoints(call.id), EventPayload.CodePoints(call.arguments));
    Unannounceable(parts, call);
  }

  lemma Unannounceable(parts: Parts, call: ToolCall)
    ensures Announceable(parts, call) <==>
            EventPayload.CallPayload(parts.texts, EventPayload.CodePoints(call.id), call.name,
                                     EventPayload.CodePoints(call.arguments)) != None
  {
  }

  lemma Regroup(opening: seq<Message>, told: seq<Message>, asked: seq<Message>, answers: seq<Message>, note: seq<Message>)
    ensures (((opening + told) + asked) + answers) + note == opening + (told + (asked + answers + note))
  {
  }

  /** A run that finished names a blocker and is reported blocked, or changed nothing the
      tracker sees, or is reported verified exactly when an accepted verification follows
      every tracked change. */
  lemma VerifiedRunsAreFresh(settings: Settings, parts: Parts, turns: seq<Turn>, completion: Option<Status>, blockedReason: Option<string>)
    requires RunEnds(settings, parts, turns, FinishTask, completion, blockedReason)
    ensures var log := EventsOf(turns);
            var tracked, stands := ChangeTracked(parts.normalize, log), VerificationStands(parts.normalize, log);
            && (completion == Some(Blocked) <==> blockedReason.Some?)
            && (completion == Some(CompletedNoChanges) <==> blockedReason.None? && !tracked)
            && (completion == Some(CompletedVerified) <==> blockedReason.None? && tracked && stands)
            && (completion == Some(CompletedUnverified) <==> blockedReason.None? && tracked && !stands)
  {
    hide FactsOf, EventsOf, FinishHandled, Decide, ChangeTracked, VerificationStands;
    var log := EventsOf(turns);
    StatusExactly(parts.normalize, log, blockedReason);
  }
}
