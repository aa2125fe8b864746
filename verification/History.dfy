/** Message history: which messages may follow which, and the pairing of tool
    calls with tool results. */
module History {
  import opened Prelude

  datatype ToolCall = ToolCall(id: string, name: string, arguments: string)

  datatype TokenUsage = TokenUsage(promptTokens: Option<int>, completionTokens: Option<int>)

  datatype ModelResponse = ModelResponse(
    content: Option<string>, finishReason: Option<string>, usage: Option<TokenUsage>, calls: seq<ToolCall>)

  /** Tool result text, as far as the history looks at it. */
  datatype Content = JsonObject(text: string) | JsonOther(text: string) | NotJson(text: string)

  datatype Message =
    | System(prompt: string)
    | User(text: string)
    | Assistant(response: ModelResponse)
    | Tool(callId: string, content: Content)

  datatype HistoryError =
    | SystemNotFirst
    | UserOutOfPlace
    | AssistantOutOfPlace
    | ResultsPending
    | NoSuchPendingCall
    | ResultOutOfPlace
    | ResultNotJson
    | ResultNotObject

  // ----- the protocol -----

  datatype Kind = Empty | AfterSystem | AfterUser | AfterAssistant | AfterTool

  function KindOf(m: Message): Kind {
    match m
    case System(_) => AfterSystem
    case User(_) => AfterUser
    case Assistant(_) => AfterAssistant
    case Tool(_, _) => AfterTool
  }

  function LastKind(ms: seq<Message>): Kind {
    if ms == [] then Empty else KindOf(ms[|ms| - 1])
  }

  /** What the history remembers: the kind of its last message and the calls still
      waiting for a result. */
  datatype Mode = Mode(last: Kind, pending: multiset<string>)

  function CallIds(calls: seq<ToolCall>): multiset<string> {
    if calls == [] then multiset{} else CallIds(calls[..|calls| - 1]) + multiset{calls[|calls| - 1].id}
  }

  function Next(mode: Mode, m: Message): Result<Mode, HistoryError> {
    match m
    case System(_) =>
      if mode.last != Empty then Err(SystemNotFirst) else Ok(mode.(last := AfterSystem))
    case User(_) =>
      if mode.last == Empty || mode.last == AfterUser then Err(UserOutOfPlace)
      else if mode.pending != multiset{} then Err(ResultsPending)
      else Ok(mode.(last := AfterUser))
    case Assistant(r) =>
      if mode.last != AfterUser && mode.last != AfterTool then Err(AssistantOutOfPlace)
      else if mode.pending != multiset{} then Err(ResultsPending)
      else Ok(Mode(AfterAssistant, mode.pending + CallIds(r.calls)))
    case Tool(id, content) =>
      if id !in mode.pending then Err(NoSuchPendingCall)
      else if mode.last != AfterAssistant && mode.last != AfterTool then Err(ResultOutOfPlace)
      else if content.NotJson? then Err(ResultNotJson)
      else if content.JsonOther? then Err(ResultNotObject)
      else Ok(Mode(AfterTool, mode.pending - multiset{id}))
  }

  /** Replaying messages one by one from a mode. */
  function Replay(mode: Mode, ms: seq<Message>): Result<Mode, HistoryError> {
    if ms == [] then Ok(mode)
    else
      match Replay(mode, ms[..|ms| - 1])
      case Err(e) => Err(e)
      case Ok(before) => Next(before, ms[|ms| - 1])
  }

  const START: Mode := Mode(Empty, multiset{})

  predicate Legal(ms: seq<Message>) {
    Replay(START, ms).Ok?
  }

  /** Legal with every tool call answered. */
  predicate Complete(ms: seq<Message>) {
    Replay(START, ms).Ok? && Replay(START, ms).value.pending == multiset{}
  }

  // ----- what a legal history is -----

  /** The calls that wait after a message, given those that waited before it. */
  function WaitAfter(waiting: multiset<string>, m: Message): multiset<string> {
    match m
    case Assistant(r) => waiting + CallIds(r.calls)
    case Tool(id, _) => waiting - multiset{id}
    case _ => waiting
  }

  /** The calls asked for and not answered yet. */
  function Unanswered(ms: seq<Message>): multiset<string> {
    if ms == [] then multiset{} else WaitAfter(Unanswered(ms[..|ms| - 1]), ms[|ms| - 1])
  }

  /** Message `i` is in its place: the system message at the start and nowhere else; a user
      message after anything but another one, and an assistant message after a user message
      or a result, when nothing is unanswered; a result after its calls or other results,
      when its call is unanswered, and it is a JSON object. */
  predicate InPlace(ms: seq<Message>, i: nat)
    requires i < |ms|
  {
    match ms[i]
    case System(_) => i == 0
    case User(_) => i > 0 && !ms[i - 1].User? && Unanswered(ms[..i]) == multiset{}
    case Assistant(_) => i > 0 && (ms[i - 1].User? || ms[i - 1].Tool?) && Unanswered(ms[..i]) == multiset{}
    case Tool(id, content) =>
      i > 0 && (ms[i - 1].Assistant? || ms[i - 1].Tool?) && Unanswered(ms[..i])[id] > 0 && content.JsonObject?
  }

  ghost predicate AllInPlace(ms: seq<Message>) {
    forall i :: 0 <= i < |ms| ==> InPlace(ms, i)
  }

  lemma InPlaceNext(init: seq<Message>, m: Message)
    ensures AllInPlace(init + [m]) <==> AllInPlace(init) && InPlace(init + [m], |init|)
  {
    hide InPlace;
    var ms := init + [m];
    forall i | 0 <= i < |init| ensures InPlace(ms, i) <==> InPlace(init, i) {
      InPlaceBefore(init, m, i);
    }
  }

  lemma InPlaceBefore(init: seq<Message>, m: Message, i: nat)
    requires i < |init|
    ensures InPlace(init + [m], i) <==> InPlace(init, i)
  {
    hide Unanswered;
    var ms := init + [m];
    assert ms[..i] == init[..i] && ms[i] == init[i] && (i > 0 ==> ms[i - 1] == init[i - 1]);
  }

  /** A history is legal exactly when every message of it is in its place, and then the
      calls that wait are those not answered. */
  lemma {:induction false} LegalExactly(ms: seq<Message>)
    ensures if AllInPlace(ms) then Replay(START, ms) == Ok(Mode(LastKind(ms), Unanswered(ms))) else !Legal(ms)
  {
    hide AllInPlace, InPlace, Unanswered, Next, LastKind;
    if ms == [] {
      NothingReplayed(ms);
    } else {
      var init, m := ms[..|ms| - 1], ms[|ms| - 1];
      assert ms == init + [m];
      LegalExactly(init);
      InPlaceNext(init, m);
      if AllInPlace(init) {
        NextInPlace(init, m);
      }
    }
  }

  lemma NothingReplayed(ms: seq<Message>)
    requires ms == []
    ensures AllInPlace(ms) && Mode(LastKind(ms), Unanswered(ms)) == START
  {
  }

  /** Whether a message is in its place, by what came before it. */
  predicate Placed(mode: Mode, m: Message) {
    match m
    case System(_) => mode.last == Empty
    case User(_) => mode.last in {AfterSystem, AfterAssistant, AfterTool} && mode.pending == multiset{}
    case Assistant(_) => mode.last in {AfterUser, AfterTool} && mode.pending == multiset{}
    case Tool(id, content) => mode.last in {AfterAssistant, AfterTool} && mode.pending[id] > 0 && content.JsonObject?
  }

  lemma PlacedExactly(init: seq<Message>, m: Message)
    ensures InPlace(init + [m], |init|) <==> Placed(Mode(LastKind(init), Unanswered(init)), m)
  {
    hide Unanswered;
    var ms := init + [m];
    assert ms[..|init|] == init && ms[|init|] == m && (init != [] ==> ms[|init| - 1] == init[|init| - 1]);
  }

  lemma NextPlaced(mode: Mode, m: Message)
    ensures if Placed(mode, m) then Next(mode, m) == Ok(Mode(KindOf(m), WaitAfter(mode.pending, m))) else Next(mode, m).Err?
  {
    hide CallIds;
  }

  lemma UnansweredNext(init: seq<Message>, m: Message)
    ensures LastKind(init + [m]) == KindOf(m) && Unanswered(init + [m]) == WaitAfter(Unanswered(init), m)
  {
    hide WaitAfter;
    assert (init + [m])[..|init|] == init;
  }

  lemma NextInPlace(init: seq<Message>, m: Message)
    ensures var r := Next(Mode(LastKind(init), Unanswered(init)), m);
            if InPlace(init + [m], |init|) then r == Ok(Mode(LastKind(init + [m]), Unanswered(init + [m]))) else r.Err?
  {
    hide WaitAfter, Unanswered, Next, InPlace, LastKind, Placed;
    PlacedExactly(init, m);
    NextPlaced(Mode(LastKind(init), Unanswered(init)), m);
    UnansweredNext(init, m);
  }

  /** Which of its errors a message meets: its place first, then calls that wait, then the
      form of a result. */
  lemma ErrorsExactly(mode: Mode, m: Message, e: HistoryError)
    ensures Next(mode, m) == Err(e) <==>
            match e
            case SystemNotFirst => m.System? && mode.last != Empty
            case UserOutOfPlace => m.User? && mode.last in {Empty, AfterUser}
            case AssistantOutOfPlace => m.Assistant? && mode.last in {Empty, AfterSystem, AfterAssistant}
            case ResultsPending =>
              && mode.pending != multiset{}
              && ((m.User? && mode.last in {AfterSystem, AfterAssistant, AfterTool}) ||
                  (m.Assistant? && mode.last in {AfterUser, AfterTool}))
            case NoSuchPendingCall => m.Tool? && mode.pending[m.callId] == 0
            case ResultOutOfPlace => m.Tool? && mode.pending[m.callId] > 0 && mode.last in {Empty, AfterSystem, AfterUser}
            case ResultNotJson =>
              m.Tool? && mode.pending[m.callId] > 0 && mode.last in {AfterAssistant, AfterTool} && m.content.NotJson?
            case ResultNotObject =>
              m.Tool? && mode.pending[m.callId] > 0 && mode.last in {AfterAssistant, AfterTool} && m.content.JsonOther?
  {
  }

  lemma {:induction false} ReplayConcat(mode: Mode, a: seq<Message>, b: seq<Message>)
    ensures Replay(mode, a + b) ==
            match Replay(mode, a) case Err(e) => Err(e) case Ok(middle) => Replay(middle, b)
  {
    if b == [] {
      assert a + b == a;
    } else {
      ReplayConcat(mode, a, b[..|b| - 1]);
      assert (a + b)[..|a + b| - 1] == a + b[..|b| - 1];
    }
  }

  lemma ReplayOne(mode: Mode, m: Message)
    ensures Replay(mode, [m]) == Next(mode, m)
  {
    assert [m][..0] == [];
  }

  lemma {:induction false} ReplayLastKind(mode: Mode, ms: seq<Message>)
    requires Replay(mode, ms).Ok?
    ensures Replay(mode, ms).value.last == if ms == [] then mode.last else LastKind(ms)
  {
  }

  /** The mutable history of one run. */
  class MessageHistory {
    var messages: seq<Message>
    var pending: multiset<string>

    ghost predicate Valid()
      reads this
    {
      Replay(START, messages) == Ok(Mode(LastKind(messages), pending))
    }

    constructor ()
      ensures Valid() && messages == [] && pending == multiset{}
    {
      messages, pending := [], multiset{};
    }

    /** Adding a message is one step of the protocol, or an error that changes nothing. */
    method AddSystem(prompt: string) returns (error: Option<HistoryError>)
      requires Valid()
      modifies this
      ensures Valid() && Added(old(messages), old(pending), System(prompt), error)
    {
      if messages != [] {
        return Some(SystemNotFirst);
      }
      messages := messages + [System(prompt)];
      return None;
    }

    method AddUser(text: string) returns (error: Option<HistoryError>)
      requires Valid()
      modifies this
      ensures Valid() && Added(old(messages), old(pending), User(text), error)
    {
      if messages == [] || messages[|messages| - 1].User? {
        return Some(UserOutOfPlace);
      }
      if pending != multiset{} {
        return Some(ResultsPending);
      }
      messages := messages + [User(text)];
      return None;
    }

    method AddAssistant(response: ModelResponse) returns (error: Option<HistoryError>)
      requires Valid()
      modifies this
      ensures Valid() && Added(old(messages), old(pending), Assistant(response), error)
    {
      if messages == [] || !(messages[|messages| - 1].User? || messages[|messages| - 1].Tool?) {
        return Some(AssistantOutOfPlace);
      }
      if pending != multiset{} {
        return Some(ResultsPending);
      }
      messages := messages + [Assistant(response)];
      pending := pending + CallIds(response.calls);
      return None;
    }

    method AddTool(callId: string, content: Content) returns (error: Option<HistoryError>)
      requires Valid()
      modifies this
      ensures Valid() && Added(old(messages), old(pending), Tool(callId, content), error)
    {
      if pending[callId] <= 0 {
        return Some(NoSuchPendingCall);
      }
      PendingMeansMessages();
      if !(messages[|messages| - 1].Assistant? || messages[|messages| - 1].Tool?) {
        return Some(ResultOutOfPlace);
      }
      match content
      case NotJson(_) =>
        return Some(ResultNotJson);
      case JsonOther(_) =>
        return Some(ResultNotObject);
      case JsonObject(_) =>
        messages := messages + [Tool(callId, content)];
        pending := pending - multiset{callId};
        return None;
    }

    lemma PendingMeansMessages()
      requires Valid() && pending != multiset{}
      ensures messages != []
    {
    }

    /** The messages and pending calls after offering `m`. */
    ghost predicate Added(before: seq<Message>, waiting: multiset<string>, m: Message, error: Option<HistoryError>)
      reads this
    {
      match Next(Mode(LastKind(before), waiting), m)
      case Err(e) => error == Some(e) && messages == before && pending == waiting
      case Ok(mode) => error == None && messages == before + [m] && pending == mode.pending
    }
  }

  // ----- every tool call has exactly one result -----

  function ResultIds(ms: seq<Message>): multiset<string> {
    if ms == [] then multiset{}
    else
      ResultIds(ms[..|ms| - 1]) +
      if ms[|ms| - 1].Tool? then multiset{ms[|ms| - 1].callId} else multiset{}
  }

  /** A run of tool results takes exactly its call ids off the waiting calls. */
  lemma {:induction false} ResultsTakeTheirCalls(mode: Mode, tools: seq<Message>)
    requires Replay(mode, tools).Ok? && forall m :: m in tools ==> m.Tool?
    ensures ResultIds(tools) <= mode.pending
    ensures Replay(mode, tools).value.pending == mode.pending - ResultIds(tools)
  {
    if tools != [] {
      hide Next;
      var init, m := tools[..|tools| - 1], tools[|tools| - 1];
      assert m in tools;
      ResultsTakeTheirCalls(mode, init);
      ToolTakesOne(Replay(mode, init).value, m);
      TakenTogether(mode.pending, ResultIds(init), m.callId);
    }
  }

  lemma ToolTakesOne(mode: Mode, m: Message)
    requires m.Tool? && Next(mode, m).Ok?
    ensures m.callId in mode.pending && Next(mode, m).value.pending == mode.pending - multiset{m.callId}
  {
  }

  lemma TakenTogether(all: multiset<string>, taken: multiset<string>, id: string)
    requires taken <= all && id in all - taken
    ensures taken + multiset{id} <= all && all - (taken + multiset{id}) == (all - taken) - multiset{id}
  {
  }

  lemma LegalPrefix(ms: seq<Message>, k: nat)
    requires Legal(ms) && k <= |ms|
    ensures Legal(ms[..k]) && Replay(Replay(START, ms[..k]).value, ms[k..]).Ok?
    ensures Replay(START, ms) == Replay(Replay(START, ms[..k]).value, ms[k..])
  {
    ReplayConcat(START, ms[..k], ms[k..]);
    assert ms[..k] + ms[k..] == ms;
  }

  lemma ReplayHead(mode: Mode, ms: seq<Message>)
    requires ms != [] && Replay(mode, ms).Ok?
    ensures Next(mode, ms[0]).Ok? && Replay(Next(mode, ms[0]).value, ms[1..]) == Replay(mode, ms)
  {
    ReplayConcat(mode, [ms[0]], ms[1..]);
    ReplayOne(mode, ms[0]);
    assert [ms[0]] + ms[1..] == ms;
  }

  /** The mode right after an assistant message waits for exactly its calls. */
  lemma AssistantAsks(ms: seq<Message>, i: nat) returns (asked: Mode)
    requires Legal(ms) && i < |ms| && ms[i].Assistant?
    ensures asked == Mode(AfterAssistant, CallIds(ms[i].response.calls))
    ensures Replay(asked, ms[i + 1..]) == Replay(START, ms)
  {
    hide Replay;
    LegalPrefix(ms, i);
    var before := Replay(START, ms[..i]).value;
    ReplayHead(before, ms[i..]);
    assert ms[i..][0] == ms[i] && ms[i..][1..] == ms[i + 1..];
    asked := Next(before, ms[i]).value;
    assert before.pending == multiset{};
    assert multiset{} + CallIds(ms[i].response.calls) == CallIds(ms[i].response.calls);
  }

  /** Only a tool result may follow while calls are waiting. */
  lemma OtherMessageNeedsNothingPending(mode: Mode, ms: seq<Message>)
    requires ms != [] && !ms[0].Tool? && mode.last != Empty && Replay(mode, ms).Ok?
    ensures mode.pending == multiset{}
  {
    hide Replay;
    ReplayHead(mode, ms);
  }

  /** In a legal history, the results between an assistant message and the next
      message of another kind, or the end of a complete history, answer exactly the
      calls of that assistant message, each once. */
  lemma EachCallAnsweredOnce(ms: seq<Message>, i: nat, j: nat)
    requires Legal(ms) && i < j <= |ms| && ms[i].Assistant?
    requires forall k :: i < k < j ==> ms[k].Tool?
    requires j < |ms| ==> !ms[j].Tool?
    requires j == |ms| ==> Complete(ms)
    ensures ResultIds(ms[i + 1..j]) == CallIds(ms[i].response.calls)
  {
    hide Replay, ResultIds, CallIds, Next;
    var asked := AssistantAsks(ms, i);
    var tools, rest := ms[i + 1..j], ms[j..];
    assert tools + rest == ms[i + 1..];
    ReplayConcat(asked, tools, rest);
    ToolsOnly(ms, i + 1, j);
    ResultsTakeTheirCalls(asked, tools);
    var answered := Replay(asked, tools).value;
    ReplayLastKind(asked, tools);
    if j < |ms| {
      assert rest[0] == ms[j];
      OtherMessageNeedsNothingPending(answered, rest);
    } else {
      ReplayNothing(answered);
    }
    EmptyDifference(asked.pending, ResultIds(tools));
  }

  lemma ToolsOnly(ms: seq<Message>, i: nat, j: nat)
    requires i <= j <= |ms| && forall k :: i <= k < j ==> ms[k].Tool?
    ensures forall m :: m in ms[i..j] ==> m.Tool?
    ensures i < j ==> LastKind(ms[i..j]) == AfterTool
  {
  }

  lemma ReplayNothing(mode: Mode)
    ensures Replay(mode, []) == Ok(mode)
  {
  }

  lemma EmptyDifference(a: multiset<string>, b: multiset<string>)
    requires b <= a && a - b == multiset{}
    ensures a == b
  {
    forall x ensures a[x] == b[x] {
      assert (a - b)[x] == 0;
    }
  }
}
