/** Assembling a streamed response from fragments. */
module Stream {
  import opened Prelude
  import opened History

  const MAX_STREAM_TOOL_CALLS: nat := 64
  const MAX_TOOL_ARGUMENT_CHARACTERS: nat := 64 * 1024
  const MAX_STREAM_TEXT_CHARACTERS: nat := 1024 * 1024

  /** A field the provider left out is the empty string. */
  datatype Fragment =
    | TextPart(text: string)
    | ReasoningPart(text: string)
    | FinishPart(reason: string)
    | UsagePart(usage: Option<TokenUsage>)
    | CallPart(index: int, id: string, name: string, arguments: string)

  datatype Refusal =
    | TextLimit | CallLimit | IdChanged | NameChanged | ArgumentLimit
    | NoData | Unnamed | BadArguments

  datatype Category = Permanent | InvalidResponse

  function CategoryOf(r: Refusal): Category {
    if r.NoData? || r.BadArguments? then InvalidResponse else Permanent
  }

  datatype Partial = Partial(id: string, name: string, arguments: string)

  datatype Assembly = Assembly(
    text: string, reasoning: string, finish: string, usage: Option<TokenUsage>,
    calls: map<int, Partial>, order: seq<int>, saw: bool)

  const NOTHING_YET: Assembly := Assembly("", "", "", None, map[], [], false)

  // ----- one fragment at a time -----

  function StepCall(s: Assembly, index: int, id: string, name: string, arguments: string): Result<Assembly, Refusal> {
    if index !in s.calls && |s.calls| >= MAX_STREAM_TOOL_CALLS then Err(CallLimit)
    else
      var known := if index in s.calls then s.calls[index] else Partial("", "", "");
      if id != "" && known.id != "" && id != known.id then Err(IdChanged)
      else if name != "" && known.name != "" && name != known.name then Err(NameChanged)
      else if arguments != "" && |known.arguments| + |arguments| > MAX_TOOL_ARGUMENT_CHARACTERS then Err(ArgumentLimit)
      else
        var merged := Partial(
          if known.id == "" then id else known.id, if known.name == "" then name else known.name, known.arguments + arguments);
        Ok(s.(calls := s.calls[index := merged], order := if index in s.calls then s.order else s.order + [index], saw := true))
  }

  function Step(s: Assembly, f: Fragment): Result<Assembly, Refusal> {
    match f
    case TextPart(text) =>
      if text == "" then Ok(s)
      else if |s.text| + |text| > MAX_STREAM_TEXT_CHARACTERS then Err(TextLimit)
      else Ok(s.(text := s.text + text, saw := true))
    case ReasoningPart(text) => if text == "" then Ok(s) else Ok(s.(reasoning := s.reasoning + text, saw := true))
    case FinishPart(reason) => if reason == "" then Ok(s) else Ok(s.(finish := reason, saw := true))
    case UsagePart(usage) => if usage == None then Ok(s) else Ok(s.(usage := usage))
    case CallPart(index, id, name, arguments) => StepCall(s, index, id, name, arguments)
  }

  function Feed(fs: seq<Fragment>): Result<Assembly, Refusal> {
    if fs == [] then Ok(NOTHING_YET)
    else
      match Feed(fs[..|fs| - 1])
      case Err(r) => Err(r)
      case Ok(s) => Step(s, fs[|fs| - 1])
  }

  // ----- what a whole stream says -----

  function TextOf(fs: seq<Fragment>): string {
    if fs == [] then ""
    else TextOf(fs[..|fs| - 1]) + match fs[|fs| - 1] case TextPart(text) => text case _ => ""
  }

  function ReasoningOf(fs: seq<Fragment>): string {
    if fs == [] then ""
    else ReasoningOf(fs[..|fs| - 1]) + match fs[|fs| - 1] case ReasoningPart(text) => text case _ => ""
  }

  function FinishOf(fs: seq<Fragment>): string {
    if fs == [] then ""
    else if fs[|fs| - 1].FinishPart? && fs[|fs| - 1].reason != "" then fs[|fs| - 1].reason
    else FinishOf(fs[..|fs| - 1])
  }

  function UsageOf(fs: seq<Fragment>): Option<TokenUsage> {
    if fs == [] then None
    else if fs[|fs| - 1].UsagePart? && fs[|fs| - 1].usage != None then fs[|fs| - 1].usage
    else UsageOf(fs[..|fs| - 1])
  }

  predicate Counts(f: Fragment) {
    match f
    case TextPart(text) => text != ""
    case ReasoningPart(text) => text != ""
    case FinishPart(reason) => reason != ""
    case UsagePart(_) => false
    case CallPart(_, _, _, _) => true
  }

  predicate Saw(fs: seq<Fragment>) {
    fs != [] && (Counts(fs[|fs| - 1]) || Saw(fs[..|fs| - 1]))
  }

  /** Indices in the order of their first appearance. */
  function OrderOf(fs: seq<Fragment>): seq<int> {
    if fs == [] then []
    else
      var earlier, f := OrderOf(fs[..|fs| - 1]), fs[|fs| - 1];
      if f.CallPart? && f.index !in earlier then earlier + [f.index] else earlier
  }

  function ArgumentsOf(fs: seq<Fragment>, i: int): string {
    if fs == [] then ""
    else
      var earlier, f := ArgumentsOf(fs[..|fs| - 1], i), fs[|fs| - 1];
      if f.CallPart? && f.index == i then earlier + f.arguments else earlier
  }

  /** The identifiers given for a call, in order. */
  function IdsOf(fs: seq<Fragment>, i: int): seq<string> {
    if fs == [] then []
    else
      var earlier, f := IdsOf(fs[..|fs| - 1], i), fs[|fs| - 1];
      if f.CallPart? && f.index == i && f.id != "" then earlier + [f.id] else earlier
  }

  function NamesOf(fs: seq<Fragment>, i: int): seq<string> {
    if fs == [] then []
    else
      var earlier, f := NamesOf(fs[..|fs| - 1], i), fs[|fs| - 1];
      if f.CallPart? && f.index == i && f.name != "" then earlier + [f.name] else earlier
  }

  predicate Agree(s: seq<string>) {
    forall k :: 0 <= k < |s| ==> s[k] == s[0]
  }

  function First(s: seq<string>): string {
    if s == [] then "" else s[0]
  }

  function CallOf(fs: seq<Fragment>, i: int): Partial {
    Partial(First(IdsOf(fs, i)), First(NamesOf(fs, i)), ArgumentsOf(fs, i))
  }

  predicate CallAcceptable(fs: seq<Fragment>, i: int) {
    |ArgumentsOf(fs, i)| <= MAX_TOOL_ARGUMENT_CHARACTERS && Agree(IdsOf(fs, i)) && Agree(NamesOf(fs, i))
  }

  /** The totals stay within the limits, and no call changes its identifier or name. */
  predicate Acceptable(fs: seq<Fragment>) {
    && |TextOf(fs)| <= MAX_STREAM_TEXT_CHARACTERS
    && |OrderOf(fs)| <= MAX_STREAM_TOOL_CALLS
    && forall i :: i in OrderOf(fs) ==> CallAcceptable(fs, i)
  }

  function AssemblyOf(fs: seq<Fragment>): Assembly {
    Assembly(TextOf(fs), ReasoningOf(fs), FinishOf(fs), UsageOf(fs),
             map i | i in OrderOf(fs) :: CallOf(fs, i), OrderOf(fs), Saw(fs))
  }

  lemma {:induction false} OrderIsDistinct(fs: seq<Fragment>)
    ensures NoDuplicates(OrderOf(fs))
  {
    if fs != [] {
      OrderIsDistinct(fs[..|fs| - 1]);
    }
  }

  lemma {:induction false} UnknownCall(fs: seq<Fragment>, i: int)
    requires i !in OrderOf(fs)
    ensures IdsOf(fs, i) == [] && NamesOf(fs, i) == [] && ArgumentsOf(fs, i) == ""
  {
    if fs != [] {
      UnknownCall(fs[..|fs| - 1], i);
    }
  }

  lemma {:induction false} IdsAreNotEmpty(fs: seq<Fragment>, i: int)
    ensures "" !in IdsOf(fs, i) && "" !in NamesOf(fs, i)
  {
    if fs != [] {
      IdsAreNotEmpty(fs[..|fs| - 1], i);
    }
  }

  lemma EntryCount(order: seq<int>, m: map<int, Partial>)
    requires NoDuplicates(order) && m.Keys == Elements(order)
    ensures |m| == |order|
    decreases |order|
  {
    DistinctCount(order);
    assert |m.Keys| == |m|;
  }

  // ----- feeding fragments refines the summary -----

  lemma OneMore(init: seq<Fragment>, f: Fragment)
    ensures TextOf(init + [f]) == TextOf(init) + (match f case TextPart(text) => text case _ => "")
    ensures ReasoningOf(init + [f]) == ReasoningOf(init) + (match f case ReasoningPart(text) => text case _ => "")
    ensures FinishOf(init + [f]) == if f.FinishPart? && f.reason != "" then f.reason else FinishOf(init)
    ensures UsageOf(init + [f]) == if f.UsagePart? && f.usage != None then f.usage else UsageOf(init)
    ensures Saw(init + [f]) == (Counts(f) || Saw(init))
    ensures OrderOf(init + [f]) ==
            if f.CallPart? && f.index !in OrderOf(init) then OrderOf(init) + [f.index] else OrderOf(init)
  {
    assert (init + [f])[..|init|] == init;
  }

  lemma OneMoreOf(init: seq<Fragment>, f: Fragment, i: int)
    ensures if f.CallPart? && f.index == i
            then
              && ArgumentsOf(init + [f], i) == ArgumentsOf(init, i) + f.arguments
              && IdsOf(init + [f], i) == IdsOf(init, i) + (if f.id != "" then [f.id] else [])
              && NamesOf(init + [f], i) == NamesOf(init, i) + (if f.name != "" then [f.name] else [])
            else
              && ArgumentsOf(init + [f], i) == ArgumentsOf(init, i)
              && IdsOf(init + [f], i) == IdsOf(init, i) && NamesOf(init + [f], i) == NamesOf(init, i)
  {
    assert (init + [f])[..|init|] == init;
  }

  /** Whether another identifier agrees with those given before. */
  lemma AgreeNext(s: seq<string>, x: string)
    requires "" !in s && Agree(s)
    ensures var more := s + (if x != "" then [x] else []);
            && (Agree(more) <==> x == "" || First(s) == "" || x == First(s))
            && First(more) == if First(s) == "" then x else First(s)
  {
    if x != "" {
      var more := s + [x];
      assert forall k :: 0 <= k < |s| ==> more[k] == s[k];
      assert more[|s|] == x;
      assert s != [] ==> s[0] in s && more[0] == s[0];
    }
  }

  lemma AgreePrefix(s: seq<string>, t: seq<string>)
    requires Agree(s + t)
    ensures Agree(s)
  {
    assert forall k :: 0 <= k < |s| ==> (s + t)[k] == s[k];
  }

  lemma UnknownIsAcceptable(fs: seq<Fragment>, i: int)
    requires i !in OrderOf(fs)
    ensures CallAcceptable(fs, i) && CallOf(fs, i) == Partial("", "", "")
  {
    UnknownCall(fs, i);
  }

  lemma CallAcceptablePrefix(init: seq<Fragment>, f: Fragment, i: int)
    requires CallAcceptable(init + [f], i)
    ensures CallAcceptable(init, i)
  {
    hide ArgumentsOf, IdsOf, NamesOf, Agree;
    OneMoreOf(init, f, i);
    if f.CallPart? && f.index == i {
      AgreePrefix(IdsOf(init, i), if f.id != "" then [f.id] else []);
      AgreePrefix(NamesOf(init, i), if f.name != "" then [f.name] else []);
    }
  }

  lemma AcceptablePrefix(init: seq<Fragment>, f: Fragment)
    requires Acceptable(init + [f])
    ensures Acceptable(init)
  {
    hide TextOf, OrderOf, CallAcceptable;
    OneMore(init, f);
    forall i | i in OrderOf(init) ensures CallAcceptable(init, i) {
      assert i in OrderOf(init + [f]);
      CallAcceptablePrefix(init, f, i);
    }
  }

  /** A part of a call keeps the call acceptable exactly when merging it is no error. */
  lemma CallPartExactly(init: seq<Fragment>, f: Fragment)
    requires f.CallPart? && CallAcceptable(init, f.index)
    ensures var known, fs := CallOf(init, f.index), init + [f];
            && (CallAcceptable(fs, f.index) <==>
                  && (f.id == "" || known.id == "" || f.id == known.id)
                  && (f.name == "" || known.name == "" || f.name == known.name)
                  && (f.arguments == "" || |known.arguments| + |f.arguments| <= MAX_TOOL_ARGUMENT_CHARACTERS))
            && CallOf(fs, f.index) ==
               Partial(if known.id == "" then f.id else known.id, if known.name == "" then f.name else known.name,
                       known.arguments + f.arguments)
  {
    hide ArgumentsOf, IdsOf, NamesOf, Agree, First;
    OneMoreOf(init, f, f.index);
    IdsAreNotEmpty(init, f.index);
    AgreeNext(IdsOf(init, f.index), f.id);
    AgreeNext(NamesOf(init, f.index), f.name);
  }

  lemma OtherCallsUnchanged(init: seq<Fragment>, f: Fragment, i: int)
    requires f.CallPart? ==> f.index != i
    ensures CallAcceptable(init + [f], i) == CallAcceptable(init, i) && CallOf(init + [f], i) == CallOf(init, i)
  {
    OneMoreOf(init, f, i);
  }

  lemma OrderedCalls(fs: seq<Fragment>)
    ensures |AssemblyOf(fs).calls| == |OrderOf(fs)|
  {
    OrderIsDistinct(fs);
    EntryCount(OrderOf(fs), AssemblyOf(fs).calls);
  }

  lemma AcceptableNextCall(init: seq<Fragment>, f: Fragment)
    requires Acceptable(init) && f.CallPart?
    ensures Acceptable(init + [f]) <==>
            && (f.index in OrderOf(init) || |OrderOf(init)| < MAX_STREAM_TOOL_CALLS)
            && CallAcceptable(init + [f], f.index)
  {
    hide TextOf, OrderOf, CallAcceptable;
    var fs := init + [f];
    OneMore(init, f);
    assert TextOf(fs) == TextOf(init);
    if CallAcceptable(fs, f.index) {
      forall i | i in OrderOf(fs) ensures CallAcceptable(fs, i) {
        if i != f.index {
          OtherCallsUnchanged(init, f, i);
          assert i in OrderOf(init);
        }
      }
    } else {
      assert f.index in OrderOf(fs);
    }
  }

  lemma CallsNext(init: seq<Fragment>, f: Fragment)
    requires f.CallPart?
    ensures AssemblyOf(init + [f]).calls == AssemblyOf(init).calls[f.index := CallOf(init + [f], f.index)]
  {
    hide TextOf, OrderOf, CallOf;
    var fs := init + [f];
    OneMore(init, f);
    forall i | i in OrderOf(fs) && i != f.index ensures i in OrderOf(init) && CallOf(fs, i) == CallOf(init, i) {
      OtherCallsUnchanged(init, f, i);
    }
  }

  lemma SameCalls(init: seq<Fragment>, f: Fragment)
    requires !f.CallPart?
    ensures AssemblyOf(init + [f]).calls == AssemblyOf(init).calls
    ensures Acceptable(init) ==> (Acceptable(init + [f]) <==> |TextOf(init + [f])| <= MAX_STREAM_TEXT_CHARACTERS)
  {
    hide TextOf, OrderOf, CallOf, CallAcceptable;
    OneMore(init, f);
    forall i | i in OrderOf(init) {
      OtherCallsUnchanged(init, f, i);
    }
  }

  lemma StepCallExactly(init: seq<Fragment>, f: Fragment)
    requires Acceptable(init) && f.CallPart?
    ensures if Acceptable(init + [f]) then Step(AssemblyOf(init), f) == Ok(AssemblyOf(init + [f]))
            else Step(AssemblyOf(init), f).Err? && CategoryOf(Step(AssemblyOf(init), f).error) == Permanent
  {
    hide TextOf, OrderOf, CallOf, CallAcceptable, Acceptable, ReasoningOf, FinishOf, UsageOf, Saw;
    OneMore(init, f);
    assert TextOf(init) + "" == TextOf(init) && ReasoningOf(init) + "" == ReasoningOf(init);
    OrderedCalls(init);
    AcceptableNextCall(init, f);
    CallsNext(init, f);
    assert CallAcceptable(init, f.index) by {
      if f.index !in OrderOf(init) {
        UnknownIsAcceptable(init, f.index);
      } else {
        KnownIsAcceptable(init, f.index);
      }
    }
    if f.index !in OrderOf(init) {
      UnknownIsAcceptable(init, f.index);
    }
    CallPartExactly(init, f);
  }

  lemma KnownIsAcceptable(fs: seq<Fragment>, i: int)
    requires Acceptable(fs) && i in OrderOf(fs)
    ensures CallAcceptable(fs, i)
  {
    hide CallAcceptable, OrderOf, TextOf;
  }

  /** Feeding a stream gives exactly its summary if the totals are acceptable, and a
      permanent refusal otherwise: the limits fire exactly when the totals exceed them. */
  lemma {:induction false} FeedExactly(fs: seq<Fragment>)
    ensures if Acceptable(fs) then Feed(fs) == Ok(AssemblyOf(fs))
            else Feed(fs).Err? && CategoryOf(Feed(fs).error) == Permanent
  {
    hide Acceptable, Step;
    if fs == [] {
      NothingFed(fs);
    } else {
      var init, f := fs[..|fs| - 1], fs[|fs| - 1];
      assert fs == init + [f];
      FeedExactly(init);
      if !Acceptable(init) {
        assert !Acceptable(fs) by {
          if Acceptable(fs) {
            AcceptablePrefix(init, f);
          }
        }
      } else if f.CallPart? {
        StepCallExactly(init, f);
      } else {
        StepOtherExactly(init, f);
      }
    }
  }

  lemma NothingFed(fs: seq<Fragment>)
    requires fs == []
    ensures Acceptable(fs) && AssemblyOf(fs) == NOTHING_YET
  {
  }

  lemma StepOtherExactly(init: seq<Fragment>, f: Fragment)
    requires Acceptable(init) && !f.CallPart?
    ensures if Acceptable(init + [f]) then Step(AssemblyOf(init), f) == Ok(AssemblyOf(init + [f]))
            else Step(AssemblyOf(init), f) == Err(TextLimit)
  {
    hide TextOf, OrderOf, CallOf, CallAcceptable, ReasoningOf, FinishOf, UsageOf, Saw;
    OneMore(init, f);
    SameCalls(init, f);
    assert TextOf(init) + "" == TextOf(init) && ReasoningOf(init) + "" == ReasoningOf(init);
  }

  // ----- the response -----

  datatype Parsed = ObjectText | OtherText | NoJson

  /** How argument text parses, and the identifier of a call that was given none. */
  datatype Rules = Rules(parse: string -> Parsed, fallbackId: int -> string)

  function BuildCall(rules: Rules, index: int, p: Partial): Result<ToolCall, Refusal> {
    var arguments := if p.arguments == "" then "{}" else p.arguments;
    if p.name == "" then Err(Unnamed)
    else if rules.parse(arguments) != ObjectText then Err(BadArguments)
    else Ok(ToolCall(if p.id == "" then rules.fallbackId(index) else p.id, p.name, arguments))
  }

  predicate Covers(calls: map<int, Partial>, order: seq<int>) {
    forall i :: i in order ==> i in calls
  }

  /** The calls in order, or the refusal of the first that does not build. */
  function BuildCalls(rules: Rules, calls: map<int, Partial>, order: seq<int>): Result<seq<ToolCall>, Refusal>
    requires Covers(calls, order)
  {
    if order == [] then Ok([])
    else
      var last := order[|order| - 1];
      match BuildCalls(rules, calls, order[..|order| - 1])
      case Err(r) => Err(r)
      case Ok(earlier) =>
        match BuildCall(rules, last, calls[last])
        case Err(r) => Err(r)
        case Ok(call) => Ok(earlier + [call])
  }

  function NonEmpty(s: string): Option<string> {
    if s == "" then None else Some(s)
  }

  datatype Streamed = Streamed(response: ModelResponse, reasoning: Option<string>)

  function Finish(rules: Rules, s: Assembly): Result<Streamed, Refusal>
    requires Covers(s.calls, s.order)
  {
    if !s.saw then Err(NoData)
    else
      match BuildCalls(rules, s.calls, s.order)
      case Err(r) => Err(r)
      case Ok(calls) =>
        Ok(Streamed(
             ModelResponse(NonEmpty(s.text), if calls != [] then Some("tool_calls") else NonEmpty(s.finish), s.usage, calls),
             NonEmpty(s.reasoning)))
  }

  lemma {:induction false} FeedCovers(fs: seq<Fragment>)
    ensures Feed(fs).Ok? ==> Covers(Feed(fs).value.calls, Feed(fs).value.order)
  {
    if fs != [] {
      FeedCovers(fs[..|fs| - 1]);
    }
  }

  datatype Outcome = Done(streamed: Streamed) | Refused(category: Category)

  function OutcomeOf(rules: Rules, fs: seq<Fragment>): Outcome {
    FeedCovers(fs);
    match Feed(fs)
    case Err(r) => Refused(CategoryOf(r))
    case Ok(s) =>
      match Finish(rules, s)
      case Err(r) => Refused(CategoryOf(r))
      case Ok(streamed) => Done(streamed)
  }

  // ----- the outcome depends on the summary alone -----

  predicate SameCall(fs: seq<Fragment>, gs: seq<Fragment>, i: int) {
    && ArgumentsOf(fs, i) == ArgumentsOf(gs, i)
    && First(IdsOf(fs, i)) == First(IdsOf(gs, i)) && Agree(IdsOf(fs, i)) == Agree(IdsOf(gs, i))
    && First(NamesOf(fs, i)) == First(NamesOf(gs, i)) && Agree(NamesOf(fs, i)) == Agree(NamesOf(gs, i))
  }

  /** The same texts, the same calls in the same order, each with the same arguments,
      first identifier and first name. */
  ghost predicate Alike(fs: seq<Fragment>, gs: seq<Fragment>) {
    && TextOf(fs) == TextOf(gs) && ReasoningOf(fs) == ReasoningOf(gs)
    && FinishOf(fs) == FinishOf(gs) && UsageOf(fs) == UsageOf(gs) && Saw(fs) == Saw(gs)
    && OrderOf(fs) == OrderOf(gs)
    && forall i: int {:trigger SameCall(fs, gs, i)} :: SameCall(fs, gs, i)
  }

  lemma SameCallAcceptable(fs: seq<Fragment>, gs: seq<Fragment>, i: int)
    requires SameCall(fs, gs, i)
    ensures CallAcceptable(fs, i) == CallAcceptable(gs, i) && CallOf(fs, i) == CallOf(gs, i)
  {
  }

  /** Streams with the same summary have the same outcome: the same response, or a
      refusal of the same category. */
  lemma AlikeStreamsAgree(rules: Rules, fs: seq<Fragment>, gs: seq<Fragment>)
    requires Alike(fs, gs)
    ensures OutcomeOf(rules, fs) == OutcomeOf(rules, gs)
  {
    hide TextOf, ReasoningOf, FinishOf, UsageOf, Saw, OrderOf, CallAcceptable, CallOf, SameCall, Feed, Finish;
    FeedExactly(fs);
    FeedExactly(gs);
    forall i | i in OrderOf(fs) ensures CallAcceptable(fs, i) == CallAcceptable(gs, i) && CallOf(fs, i) == CallOf(gs, i) {
      assert SameCall(fs, gs, i);
      SameCallAcceptable(fs, gs, i);
    }
    assert AssemblyOf(fs).calls == AssemblyOf(gs).calls;
  }

  // ----- what the summary means -----

  /** Part `j` names call `i`, or gives it an identifier. */
  predicate NamesCall(fs: seq<Fragment>, i: int, j: nat) {
    j < |fs| && fs[j].CallPart? && fs[j].index == i && fs[j].name != ""
  }

  predicate IdentifiesCall(fs: seq<Fragment>, i: int, j: nat) {
    j < |fs| && fs[j].CallPart? && fs[j].index == i && fs[j].id != ""
  }

  /** The first name given for call `i`. */
  ghost predicate FirstName(fs: seq<Fragment>, i: int, name: string) {
    exists j: nat :: NamesCall(fs, i, j) && fs[j].name == name && forall m: nat :: m < j ==> !NamesCall(fs, i, m)
  }

  ghost predicate FirstId(fs: seq<Fragment>, i: int, id: string) {
    exists j: nat :: IdentifiesCall(fs, i, j) && fs[j].id == id && forall m: nat :: m < j ==> !IdentifiesCall(fs, i, m)
  }

  lemma {:induction false} NamesExactly(fs: seq<Fragment>, i: int)
    ensures if NamesOf(fs, i) == [] then forall j: nat :: !NamesCall(fs, i, j) else FirstName(fs, i, NamesOf(fs, i)[0])
  {
    if fs != [] {
      var init := fs[..|fs| - 1];
      NamesExactly(init, i);
      assert forall j: nat :: j < |init| ==> (NamesCall(fs, i, j) <==> NamesCall(init, i, j));
      if NamesOf(init, i) == [] {
        assert forall j: nat :: j < |init| ==> !NamesCall(fs, i, j);
        assert NamesCall(fs, i, |init|) <==> NamesOf(fs, i) != [];
      } else {
        var j: nat :| NamesCall(init, i, j) && init[j].name == NamesOf(init, i)[0] && forall m: nat :: m < j ==> !NamesCall(init, i, m);
        assert NamesCall(fs, i, j) && fs[j].name == NamesOf(fs, i)[0];
      }
    }
  }

  lemma {:induction false} IdsExactly(fs: seq<Fragment>, i: int)
    ensures if IdsOf(fs, i) == [] then forall j: nat :: !IdentifiesCall(fs, i, j) else FirstId(fs, i, IdsOf(fs, i)[0])
  {
    if fs != [] {
      var init := fs[..|fs| - 1];
      IdsExactly(init, i);
      assert forall j: nat :: j < |init| ==> (IdentifiesCall(fs, i, j) <==> IdentifiesCall(init, i, j));
      if IdsOf(init, i) == [] {
        assert forall j: nat :: j < |init| ==> !IdentifiesCall(fs, i, j);
        assert IdentifiesCall(fs, i, |init|) <==> IdsOf(fs, i) != [];
      } else {
        var j: nat :| IdentifiesCall(init, i, j) && init[j].id == IdsOf(init, i)[0] && forall m: nat :: m < j ==> !IdentifiesCall(init, i, m);
        assert IdentifiesCall(fs, i, j) && fs[j].id == IdsOf(fs, i)[0];
      }
    }
  }

  /** Texts, reasoning and arguments of two streams after one another are those of each,
      after one another. */
  lemma {:induction false} TextsConcat(fs: seq<Fragment>, gs: seq<Fragment>, i: int)
    ensures TextOf(fs + gs) == TextOf(fs) + TextOf(gs) && ReasoningOf(fs + gs) == ReasoningOf(fs) + ReasoningOf(gs)
    ensures ArgumentsOf(fs + gs, i) == ArgumentsOf(fs, i) + ArgumentsOf(gs, i)
  {
    hide TextOf, ReasoningOf, ArgumentsOf;
    if gs == [] {
      assert fs + gs == fs;
      NothingSaid(i);
    } else {
      var init, f := gs[..|gs| - 1], gs[|gs| - 1];
      TextsConcat(fs, init, i);
      assert fs + gs == (fs + init) + [f] && gs == init + [f];
      TextNext(fs, init, f);
      ReasoningNext(fs, init, f);
      ArgumentsNext(fs, init, f, i);
    }
  }

  lemma TextNext(fs: seq<Fragment>, init: seq<Fragment>, f: Fragment)
    requires TextOf(fs + init) == TextOf(fs) + TextOf(init)
    ensures TextOf((fs + init) + [f]) == TextOf(fs) + TextOf(init + [f])
  {
    hide TextOf;
    OneMore(fs + init, f);
    OneMore(init, f);
    ConcatAssociates(TextOf(fs), TextOf(init), match f case TextPart(text) => text case _ => "");
  }

  lemma ReasoningNext(fs: seq<Fragment>, init: seq<Fragment>, f: Fragment)
    requires ReasoningOf(fs + init) == ReasoningOf(fs) + ReasoningOf(init)
    ensures ReasoningOf((fs + init) + [f]) == ReasoningOf(fs) + ReasoningOf(init + [f])
  {
    hide ReasoningOf;
    OneMore(fs + init, f);
    OneMore(init, f);
    ConcatAssociates(ReasoningOf(fs), ReasoningOf(init), match f case ReasoningPart(text) => text case _ => "");
  }

  lemma ArgumentsNext(fs: seq<Fragment>, init: seq<Fragment>, f: Fragment, i: int)
    requires ArgumentsOf(fs + init, i) == ArgumentsOf(fs, i) + ArgumentsOf(init, i)
    ensures ArgumentsOf((fs + init) + [f], i) == ArgumentsOf(fs, i) + ArgumentsOf(init + [f], i)
  {
    hide ArgumentsOf;
    OneMoreOf(fs + init, f, i);
    OneMoreOf(init, f, i);
    if f.CallPart? && f.index == i {
      ConcatAssociates(ArgumentsOf(fs, i), ArgumentsOf(init, i), f.arguments);
    }
  }

  lemma NothingSaid(i: int)
    ensures TextOf([]) == "" && ReasoningOf([]) == "" && ArgumentsOf([], i) == ""
  {
  }

  /** The text, reasoning and arguments of one part are its own. */
  lemma OnePart(text: string, index: int, id: string, name: string, i: int)
    ensures TextOf([TextPart(text)]) == text && ReasoningOf([ReasoningPart(text)]) == text
    ensures TextOf([ReasoningPart(text)]) == "" && ReasoningOf([TextPart(text)]) == ""
    ensures ArgumentsOf([CallPart(index, id, name, text)], i) == if index == i then text else ""
  {
    hide TextOf, ReasoningOf, ArgumentsOf;
    NothingSaid(i);
    assert [] + [TextPart(text)] == [TextPart(text)] && [] + [ReasoningPart(text)] == [ReasoningPart(text)];
    assert [] + [CallPart(index, id, name, text)] == [CallPart(index, id, name, text)];
    OneMore([], TextPart(text));
    OneMore([], ReasoningPart(text));
    OneMoreOf([], CallPart(index, id, name, text), i);
  }

  predicate BelongsTo(fs: seq<Fragment>, i: int, j: nat) {
    j < |fs| && fs[j].CallPart? && fs[j].index == i
  }

  /** Call `i` has a part before the first part of call `k`. */
  ghost predicate AppearsBefore(fs: seq<Fragment>, i: int, k: int) {
    exists j: nat :: BelongsTo(fs, i, j) && forall m: nat :: m <= j ==> !BelongsTo(fs, k, m)
  }

  lemma BelongsNext(init: seq<Fragment>, f: Fragment, i: int)
    ensures forall j: nat :: j < |init| ==> (BelongsTo(init + [f], i, j) <==> BelongsTo(init, i, j))
    ensures BelongsTo(init + [f], i, |init|) <==> f.CallPart? && f.index == i
  {
  }

  lemma AppearsBeforeStays(init: seq<Fragment>, f: Fragment, i: int, k: int)
    requires AppearsBefore(init, i, k)
    ensures AppearsBefore(init + [f], i, k)
  {
    BelongsNext(init, f, i);
    BelongsNext(init, f, k);
    var j: nat :| BelongsTo(init, i, j) && forall m: nat :: m <= j ==> !BelongsTo(init, k, m);
    assert BelongsTo(init + [f], i, j);
  }

  /** The calls listed are those with a part, in the order of their first parts. */
  lemma {:induction false} OrderExactly(fs: seq<Fragment>)
    ensures forall i :: i in OrderOf(fs) <==> exists j: nat :: BelongsTo(fs, i, j)
    ensures forall k, l :: 0 <= k < l < |OrderOf(fs)| ==> AppearsBefore(fs, OrderOf(fs)[k], OrderOf(fs)[l])
  {
    hide BelongsTo, AppearsBefore;
    if fs == [] {
      NoParts(fs);
    } else {
      var init, f := fs[..|fs| - 1], fs[|fs| - 1];
      assert fs == init + [f];
      OrderExactly(init);
      forall i ensures i in OrderOf(fs) <==> exists j: nat :: BelongsTo(fs, i, j) {
        PartsNext(init, f, i);
      }
      forall k, l | 0 <= k < l < |OrderOf(fs)| ensures AppearsBefore(fs, OrderOf(fs)[k], OrderOf(fs)[l]) {
        if l < |OrderOf(init)| {
          AppearsBeforeStays(init, f, OrderOf(fs)[k], OrderOf(fs)[l]);
        } else {
          assert OrderOf(fs)[k] in OrderOf(init);
          NewCallIsLast(init, f, OrderOf(fs)[k]);
        }
      }
    }
  }

  lemma NoParts(fs: seq<Fragment>)
    requires fs == []
    ensures forall i, j: nat :: !BelongsTo(fs, i, j)
  {
  }

  lemma PartsNext(init: seq<Fragment>, f: Fragment, i: int)
    ensures (exists j: nat :: BelongsTo(init + [f], i, j)) <==>
            (f.CallPart? && f.index == i) || exists j: nat :: BelongsTo(init, i, j)
  {
    BelongsNext(init, f, i);
    if j: nat :| BelongsTo(init + [f], i, j) {
      assert j < |init| ==> BelongsTo(init, i, j);
    }
  }

  lemma NewCallIsLast(init: seq<Fragment>, f: Fragment, i: int)
    requires f.CallPart? && (exists j: nat :: BelongsTo(init, i, j)) && !(exists j: nat :: BelongsTo(init, f.index, j))
    ensures AppearsBefore(init + [f], i, f.index)
  {
    BelongsNext(init, f, i);
    BelongsNext(init, f, f.index);
    var j: nat :| BelongsTo(init, i, j);
    assert BelongsTo(init + [f], i, j);
  }

  predicate ReasonAt(fs: seq<Fragment>, j: nat) {
    j < |fs| && fs[j].FinishPart? && fs[j].reason != ""
  }

  predicate UsageAt(fs: seq<Fragment>, j: nat) {
    j < |fs| && fs[j].UsagePart? && fs[j].usage.Some?
  }

  /** The last reason to finish that is not empty, and the last usage that was given. */
  lemma {:induction false} LastOnesCount(fs: seq<Fragment>)
    ensures if FinishOf(fs) == "" then forall j: nat :: !ReasonAt(fs, j)
            else exists j: nat :: ReasonAt(fs, j) && fs[j].reason == FinishOf(fs) && forall m: nat :: m > j ==> !ReasonAt(fs, m)
    ensures if UsageOf(fs) == None then forall j: nat :: !UsageAt(fs, j)
            else exists j: nat :: UsageAt(fs, j) && fs[j].usage == UsageOf(fs) && forall m: nat :: m > j ==> !UsageAt(fs, m)
  {
    if fs != [] {
      var init := fs[..|fs| - 1];
      LastOnesCount(init);
      assert forall j: nat :: j < |init| ==> (ReasonAt(fs, j) <==> ReasonAt(init, j)) && (UsageAt(fs, j) <==> UsageAt(init, j));
      assert forall j: nat :: (ReasonAt(fs, j) || UsageAt(fs, j)) && j >= |init| ==> j == |init|;
      if ReasonAt(fs, |init|) {
        assert FinishOf(fs) == fs[|init|].reason;
      } else if FinishOf(init) != "" {
        var j: nat :| ReasonAt(init, j) && init[j].reason == FinishOf(init) && forall m: nat :: m > j ==> !ReasonAt(init, m);
        assert ReasonAt(fs, j) && fs[j].reason == FinishOf(fs);
      }
      if UsageAt(fs, |init|) {
        assert UsageOf(fs) == fs[|init|].usage;
      } else if UsageOf(init) != None {
        var j: nat :| UsageAt(init, j) && init[j].usage == UsageOf(init) && forall m: nat :: m > j ==> !UsageAt(init, m);
        assert UsageAt(fs, j) && fs[j].usage == UsageOf(fs);
      }
    }
  }

  /** Some fragment says something: any part of a call, or a text, a reasoning or a reason
      to finish that is not empty. */
  ghost predicate SaysSomething(fs: seq<Fragment>) {
    exists j :: 0 <= j < |fs| && fs[j] !in {TextPart(""), ReasoningPart(""), FinishPart("")} && !fs[j].UsagePart?
  }

  lemma {:induction false} SawExactly(fs: seq<Fragment>)
    ensures Saw(fs) <==> SaysSomething(fs)
  {
    if fs != [] {
      var init := fs[..|fs| - 1];
      SawExactly(init);
      if SaysSomething(init) {
        var j :| 0 <= j < |init| && init[j] !in {TextPart(""), ReasoningPart(""), FinishPart("")} && !init[j].UsagePart?;
        assert fs[j] == init[j];
      }
      if j :| 0 <= j < |fs| && fs[j] !in {TextPart(""), ReasoningPart(""), FinishPart("")} && !fs[j].UsagePart? {
        assert j < |init| ==> init[j] == fs[j];
      }
    }
  }

  // ----- the outcome, exactly -----

  /** The concatenated arguments of a call, or an empty object for none. */
  function ArgumentsGiven(fs: seq<Fragment>, i: int): string {
    var all := ArgumentsOf(fs, i);
    if |all| > 0 then all else "{}"
  }

  ghost predicate Named(fs: seq<Fragment>, i: int) {
    exists j: nat :: NamesCall(fs, i, j)
  }

  /** Call `i` was named and its arguments are the text of an object. */
  ghost predicate Buildable(rules: Rules, fs: seq<Fragment>, i: int) {
    Named(fs, i) && rules.parse(ArgumentsGiven(fs, i)) == ObjectText
  }

  /** What the response says about call `i`. */
  ghost predicate SaysCall(rules: Rules, fs: seq<Fragment>, i: int, call: ToolCall) {
    && FirstName(fs, i, call.name)
    && (FirstId(fs, i, call.id) || ((forall j: nat :: !IdentifiesCall(fs, i, j)) && call.id == rules.fallbackId(i)))
    && call.arguments == ArgumentsGiven(fs, i)
  }

  /** A call is built exactly if it was named and its arguments parse as an object; a call
      never named is refused before its arguments are looked at. */
  lemma BuiltExactly(rules: Rules, fs: seq<Fragment>, i: int)
    ensures match BuildCall(rules, i, CallOf(fs, i))
            case Ok(call) => Buildable(rules, fs, i) && SaysCall(rules, fs, i, call)
            case Err(Unnamed) => !Named(fs, i)
            case Err(BadArguments) => Named(fs, i) && rules.parse(ArgumentsGiven(fs, i)) != ObjectText
            case Err(_) => false
  {
    hide ArgumentsOf, NamesOf, IdsOf, NamesCall, IdentifiesCall;
    IdsAreNotEmpty(fs, i);
    NamesExactly(fs, i);
    IdsExactly(fs, i);
    NamesListed(fs, i);
  }

  lemma NamesListed(fs: seq<Fragment>, i: int)
    ensures NamesOf(fs, i) != [] <==> Named(fs, i)
    ensures NamesOf(fs, i) != [] ==> NamesOf(fs, i)[0] in NamesOf(fs, i)
    ensures IdsOf(fs, i) != [] ==> IdsOf(fs, i)[0] in IdsOf(fs, i)
  {
    hide NamesCall, NamesOf, IdsOf;
    NamesExactly(fs, i);
  }

  /** A response is made exactly of a stream within the limits that says something and
      whose every call is named and has an object for arguments. */
  lemma DoneExactly(rules: Rules, fs: seq<Fragment>)
    ensures OutcomeOf(rules, fs).Done? <==>
              Acceptable(fs) && SaysSomething(fs) && forall i :: i in OrderOf(fs) ==> Buildable(rules, fs, i)
  {
    hide TextOf, OrderOf, CallOf, Acceptable, Feed, BuildCall, Saw, ReasoningOf, FinishOf, UsageOf, Buildable, SaysSomething;
    FeedExactly(fs);
    SawExactly(fs);
    BuiltOrRefused(rules, fs, OrderOf(fs));
  }

  /** The response: the whole text, reasoning and usage, the calls in the order of their
      first parts, each with its first name, its first identifier or the fallback, and all
      its arguments; and it finished for its calls, or for the last reason given. */
  lemma DoneSaysEverything(rules: Rules, fs: seq<Fragment>)
    requires OutcomeOf(rules, fs).Done?
    ensures var streamed := OutcomeOf(rules, fs).streamed;
            var r := streamed.response;
            && (if TextOf(fs) == "" then r.content == None else r.content == Some(TextOf(fs)))
            && (if ReasoningOf(fs) == "" then streamed.reasoning == None else streamed.reasoning == Some(ReasoningOf(fs)))
            && r.usage == UsageOf(fs)
            && r.finishReason == (if OrderOf(fs) != [] then Some("tool_calls")
                                  else if FinishOf(fs) == "" then None else Some(FinishOf(fs)))
            && |r.calls| == |OrderOf(fs)|
            && forall k :: 0 <= k < |r.calls| ==> SaysCall(rules, fs, OrderOf(fs)[k], r.calls[k])
  {
    hide TextOf, OrderOf, CallOf, Acceptable, Feed, BuildCall, Saw, ReasoningOf, FinishOf, UsageOf, SaysCall, Buildable;
    FeedExactly(fs);
    BuiltInOrder(rules, AssemblyOf(fs).calls, OrderOf(fs));
    var r := OutcomeOf(rules, fs).streamed.response;
    forall k | 0 <= k < |r.calls| ensures SaysCall(rules, fs, OrderOf(fs)[k], r.calls[k]) {
      BuiltExactly(rules, fs, OrderOf(fs)[k]);
    }
  }

  /** Call number `k` is the first that does not build; `named` says whether it has a name. */
  ghost predicate FailsFirst(rules: Rules, fs: seq<Fragment>, order: seq<int>, k: nat, named: bool) {
    && k < |order| && !Buildable(rules, fs, order[k]) && (named <==> Named(fs, order[k]))
    && forall m :: 0 <= m < k ==> Buildable(rules, fs, order[m])
  }

  ghost predicate Fails(rules: Rules, fs: seq<Fragment>, order: seq<int>, named: bool) {
    exists k: nat :: FailsFirst(rules, fs, order, k, named)
  }

  lemma OneFailure(rules: Rules, fs: seq<Fragment>, order: seq<int>)
    ensures !(Fails(rules, fs, order, true) && Fails(rules, fs, order, false))
    ensures Fails(rules, fs, order, true) || Fails(rules, fs, order, false) ==>
              exists i :: i in order && !Buildable(rules, fs, i)
  {
    hide Buildable, Named;
    forall j: nat, k: nat | FailsFirst(rules, fs, order, j, true) ensures !FailsFirst(rules, fs, order, k, false) {
    }
  }

  /** Why a stream within the limits is refused at its end: it said nothing, or its first
      call that does not build was never named, or was and has other arguments than an
      object. */
  lemma RefusedExactly(rules: Rules, fs: seq<Fragment>)
    requires Acceptable(fs)
    ensures var result := Finish(rules, AssemblyOf(fs));
            && (result == Err(NoData) <==> !SaysSomething(fs))
            && (result == Err(Unnamed) <==> SaysSomething(fs) && Fails(rules, fs, OrderOf(fs), false))
            && (result == Err(BadArguments) <==> SaysSomething(fs) && Fails(rules, fs, OrderOf(fs), true))
            && OutcomeOf(rules, fs) == match result case Ok(streamed) => Done(streamed)
                                                    case Err(Unnamed) => Outcome.Refused(Permanent)
                                                    case Err(_) => Outcome.Refused(InvalidResponse)
  {
    hide TextOf, OrderOf, CallOf, Acceptable, Feed, BuildCalls, Saw, ReasoningOf, FinishOf, UsageOf, Buildable, SaysSomething, Fails;
    FeedExactly(fs);
    SawExactly(fs);
    BuiltOrRefused(rules, fs, OrderOf(fs));
    OneFailure(rules, fs, OrderOf(fs));
  }

  /** Building the calls in order stops at the first that does not build. */
  lemma {:induction false} BuiltOrRefused(rules: Rules, fs: seq<Fragment>, order: seq<int>)
    requires Covers(AssemblyOf(fs).calls, order)
    ensures match BuildCalls(rules, AssemblyOf(fs).calls, order)
            case Ok(_) => forall i :: i in order ==> Buildable(rules, fs, i)
            case Err(Unnamed) => Fails(rules, fs, order, false)
            case Err(BadArguments) => Fails(rules, fs, order, true)
            case Err(_) => false
  {
    hide BuildCall, Buildable, Named, CallOf, OrderOf, TextOf, ReasoningOf, FinishOf, UsageOf, Saw;
    if order != [] {
      var init, last := order[..|order| - 1], order[|order| - 1];
      BuiltOrRefused(rules, fs, init);
      match BuildCalls(rules, AssemblyOf(fs).calls, init)
      case Ok(_) =>
        BuiltOrNot(rules, fs, last);
        assert forall m :: 0 <= m < |init| ==> order[m] in init;
        if !Buildable(rules, fs, last) {
          assert FailsFirst(rules, fs, order, |init|, Named(fs, last));
        }
      case Err(r) =>
        var named := r == BadArguments;
        var k: nat :| FailsFirst(rules, fs, init, k, named);
        assert FailsFirst(rules, fs, order, k, named);
    }
  }

  lemma BuiltOrNot(rules: Rules, fs: seq<Fragment>, i: int)
    ensures match BuildCall(rules, i, CallOf(fs, i))
            case Ok(_) => Buildable(rules, fs, i)
            case Err(Unnamed) => !Buildable(rules, fs, i) && !Named(fs, i)
            case Err(BadArguments) => !Buildable(rules, fs, i) && Named(fs, i)
            case Err(_) => false
  {
    hide BuildCall, CallOf, NamesCall;
    BuiltExactly(rules, fs, i);
  }

  lemma {:induction false} BuiltInOrder(rules: Rules, calls: map<int, Partial>, order: seq<int>)
    requires Covers(calls, order) && BuildCalls(rules, calls, order).Ok?
    ensures var built := BuildCalls(rules, calls, order).value;
            && |built| == |order|
            && forall k :: 0 <= k < |built| ==> BuildCall(rules, order[k], calls[order[k]]) == Ok(built[k])
  {
    hide BuildCall;
    if order != [] {
      BuiltInOrder(rules, calls, order[..|order| - 1]);
    }
  }

  // ----- re-fragmentation -----

  lemma AgreeOneMore(s: seq<string>, t: seq<string>, x: string)
    requires "" !in s && "" !in t && First(s) == First(t) && Agree(s) == Agree(t)
    ensures var more := if x != "" then [x] else [];
            First(s + more) == First(t + more) && Agree(s + more) == Agree(t + more)
  {
    hide Agree;
    var more := if x != "" then [x] else [];
    if Agree(s) {
      AgreeNext(s, x);
      AgreeNext(t, x);
    } else {
      if Agree(s + more) {
        AgreePrefix(s, more);
      }
      if Agree(t + more) {
        AgreePrefix(t, more);
      }
      assert First(s + more) == First(t + more) by {
        assert s != [] ==> s[0] in s;
        assert t != [] ==> t[0] in t;
      }
    }
  }

  lemma SameCallExtends(fs: seq<Fragment>, gs: seq<Fragment>, f: Fragment, i: int)
    requires SameCall(fs, gs, i)
    ensures SameCall(fs + [f], gs + [f], i)
  {
    hide ArgumentsOf, IdsOf, NamesOf, Agree, First;
    OneMoreOf(fs, f, i);
    OneMoreOf(gs, f, i);
    if f.CallPart? && f.index == i {
      IdsAreNotEmpty(fs, i);
      IdsAreNotEmpty(gs, i);
      AgreeOneMore(IdsOf(fs, i), IdsOf(gs, i), f.id);
      AgreeOneMore(NamesOf(fs, i), NamesOf(gs, i), f.name);
    }
  }

  lemma AlikeExtends(fs: seq<Fragment>, gs: seq<Fragment>, f: Fragment)
    requires Alike(fs, gs)
    ensures Alike(fs + [f], gs + [f])
  {
    hide TextOf, ReasoningOf, FinishOf, UsageOf, Saw, OrderOf, SameCall;
    OneMore(fs, f);
    OneMore(gs, f);
    forall i: int ensures SameCall(fs + [f], gs + [f], i) {
      assert SameCall(fs, gs, i);
      SameCallExtends(fs, gs, f, i);
    }
  }

  lemma {:induction false} AlikeFollowed(fs: seq<Fragment>, gs: seq<Fragment>, rest: seq<Fragment>)
    requires Alike(fs, gs)
    ensures Alike(fs + rest, gs + rest)
  {
    hide Alike;
    if rest == [] {
      assert fs + rest == fs && gs + rest == gs;
    } else {
      var init, f := rest[..|rest| - 1], rest[|rest| - 1];
      AlikeFollowed(fs, gs, init);
      AlikeExtends(fs + init, gs + init, f);
      assert fs + rest == (fs + init) + [f] && gs + rest == (gs + init) + [f];
    }
  }

  /** Two fragments that one fragment may be cut into, wherever the cut is; the second
      part of a call may repeat or leave out the identifier and the name. */
  predicate Cuts(whole: Fragment, a: Fragment, b: Fragment) {
    match whole
    case TextPart(text) => a.TextPart? && b.TextPart? && text == a.text + b.text
    case ReasoningPart(text) => a.ReasoningPart? && b.ReasoningPart? && text == a.text + b.text
    case CallPart(index, id, name, arguments) =>
      && a.CallPart? && b.CallPart? && a.index == b.index == index && arguments == a.arguments + b.arguments
      && a.id == id && (b.id == id || b.id == "") && a.name == name && (b.name == name || b.name == "")
    case _ => false
  }

  lemma AgreePrefixOrNot(one: seq<string>, y: string)
    requires y in one
    ensures Agree(one + [y]) == Agree(one) && First(one + [y]) == First(one)
  {
    var i :| 0 <= i < |one| && one[i] == y;
    if Agree(one) {
      assert one[i] == one[0];
    }
    if Agree(one + [y]) {
      AgreePrefix(one, [y]);
    }
  }

  lemma AgreeRepeated(s: seq<string>, x: string, y: string)
    requires "" !in s && (y == x || y == "")
    ensures var one, two := s + (if x != "" then [x] else []), (s + (if x != "" then [x] else [])) + (if y != "" then [y] else []);
            First(one) == First(two) && Agree(one) == Agree(two)
  {
    var one := s + (if x != "" then [x] else []);
    if y == "" {
      assert one + [] == one;
    } else {
      assert one[|s|] == y;
      AgreePrefixOrNot(one, y);
    }
  }

  lemma CutCallsAlike(pre: seq<Fragment>, whole: Fragment, a: Fragment, b: Fragment, i: int)
    requires Cuts(whole, a, b)
    ensures SameCall(pre + [whole], pre + [a] + [b], i)
  {
    hide ArgumentsOf, IdsOf, NamesOf, Agree, First;
    OneMoreOf(pre, whole, i);
    OneMoreOf(pre, a, i);
    OneMoreOf(pre + [a], b, i);
    if whole.CallPart? && whole.index == i {
      IdsAreNotEmpty(pre, i);
      AgreeRepeated(IdsOf(pre, i), whole.id, b.id);
      AgreeRepeated(NamesOf(pre, i), whole.name, b.name);
      assert ArgumentsOf(pre, i) + (a.arguments + b.arguments) == (ArgumentsOf(pre, i) + a.arguments) + b.arguments;
    }
  }

  /** Cutting a fragment anywhere changes nothing about the outcome. */
  lemma CutFragment(rules: Rules, pre: seq<Fragment>, whole: Fragment, a: Fragment, b: Fragment, post: seq<Fragment>)
    requires Cuts(whole, a, b)
    ensures OutcomeOf(rules, pre + [whole] + post) == OutcomeOf(rules, pre + [a] + [b] + post)
  {
    hide *;
    CutAlike(pre, whole, a, b);
    AlikeFollowed(pre + [whole], pre + [a] + [b], post);
    AlikeStreamsAgree(rules, pre + [whole] + post, pre + [a] + [b] + post);
  }

  /** The cut leaves the summary of what came so far the same. */
  lemma CutAlike(pre: seq<Fragment>, whole: Fragment, a: Fragment, b: Fragment)
    requires Cuts(whole, a, b)
    ensures Alike(pre + [whole], pre + [a] + [b])
  {
    hide TextOf, ReasoningOf, FinishOf, UsageOf, Saw, OrderOf, SameCall;
    OneMore(pre, whole);
    OneMore(pre, a);
    OneMore(pre + [a], b);
    forall i: int ensures SameCall(pre + [whole], pre + [a] + [b], i) {
      CutCallsAlike(pre, whole, a, b, i);
    }
    if whole.TextPart? {
      ConcatAssociates(TextOf(pre), a.text, b.text);
    } else if whole.ReasoningPart? {
      ConcatAssociates(ReasoningOf(pre), a.text, b.text);
    }
  }

  // ----- the mutable assembler -----

  class StreamAssembler {
    var texts: seq<string>
    var reasonings: seq<string>
    var textLength: nat
    var finishReason: string
    var usage: Option<TokenUsage>
    var calls: map<int, Partial>
    var order: seq<int>
    var sawFragment: bool
    /** What the text callback was given, one entry per call. */
    var reported: seq<string>
    /** Every fragment accepted so far. */
    ghost var fed: seq<Fragment>

    ghost predicate Valid()
      reads this
    {
      && Feed(fed) == Ok(Assembly(Join(texts), Join(reasonings), finishReason, usage, calls, order, sawFragment))
      && textLength == |Join(texts)| && reported == texts
    }

    constructor ()
      ensures Valid() && fed == []
    {
      texts, reasonings, textLength, finishReason, usage := [], [], 0, "", None;
      calls, order, sawFragment, reported, fed := map[], [], false, [], [];
    }

    /** The result of offering one fragment: one more fragment fed, or the refusal. */
    ghost predicate Offered(before: seq<Fragment>, f: Fragment, refusal: Option<Refusal>)
      reads this
    {
      match Feed(before + [f])
      case Ok(_) => refusal == None && fed == before + [f] && Valid()
      case Err(r) => refusal == Some(r)
    }

    method AddText(text: string) returns (refusal: Option<Refusal>)
      requires Valid()
      modifies this
      ensures Offered(old(fed), TextPart(text), refusal)
    {
      hide Feed, Join;
      FeedNext(fed, TextPart(text));
      fed := fed + [TextPart(text)];
      if text == "" {
        return None;
      }
      sawFragment := true;
      textLength := textLength + |text|;
      if textLength > MAX_STREAM_TEXT_CHARACTERS {
        return Some(TextLimit);
      }
      JoinAppend(texts, text);
      texts := texts + [text];
      reported := reported + [text];
      return None;
    }

    method AddReasoning(text: string) returns (refusal: Option<Refusal>)
      requires Valid()
      modifies this
      ensures Offered(old(fed), ReasoningPart(text), refusal)
    {
      hide Feed, Join;
      FeedNext(fed, ReasoningPart(text));
      fed := fed + [ReasoningPart(text)];
      if text == "" {
        return None;
      }
      sawFragment := true;
      JoinAppend(reasonings, text);
      reasonings := reasonings + [text];
      return None;
    }

    method SetFinishReason(reason: string) returns (refusal: Option<Refusal>)
      requires Valid()
      modifies this
      ensures Offered(old(fed), FinishPart(reason), refusal)
    {
      hide Feed, Join;
      FeedNext(fed, FinishPart(reason));
      fed := fed + [FinishPart(reason)];
      if reason != "" {
        sawFragment, finishReason := true, reason;
      }
      return None;
    }

    method SetUsage(u: Option<TokenUsage>) returns (refusal: Option<Refusal>)
      requires Valid()
      modifies this
      ensures Offered(old(fed), UsagePart(u), refusal)
    {
      hide Feed, Join;
      FeedNext(fed, UsagePart(u));
      fed := fed + [UsagePart(u)];
      if u != None {
        usage := u;
      }
      return None;
    }

    method AddToolCallFragment(index: int, id: string, name: string, arguments: string) returns (refusal: Option<Refusal>)
      requires Valid()
      modifies this
      ensures Offered(old(fed), CallPart(index, id, name, arguments), refusal)
    {
      hide Feed, Join;
      FeedNext(fed, CallPart(index, id, name, arguments));
      fed := fed + [CallPart(index, id, name, arguments)];
      sawFragment := true;
      var existing: Partial;
      if index !in calls {
        if |calls| >= MAX_STREAM_TOOL_CALLS {
          return Some(CallLimit);
        }
        existing := Partial(id, name, "");
        order := order + [index];
      } else {
        existing := calls[index];
        if id != "" && existing.id != "" && id != existing.id {
          return Some(IdChanged);
        }
        if name != "" && existing.name != "" && name != existing.name {
          return Some(NameChanged);
        }
        if id != "" && existing.id == "" {
          existing := existing.(id := id);
        }
        if name != "" && existing.name == "" {
          existing := existing.(name := name);
        }
      }
      if arguments != "" {
        if |existing.arguments| + |arguments| > MAX_TOOL_ARGUMENT_CHARACTERS {
          return Some(ArgumentLimit);
        }
        existing := existing.(arguments := existing.arguments + arguments);
      }
      ghost var known := if index in calls then calls[index] else Partial("", "", "");
      assert known.arguments + arguments == existing.arguments;
      calls := calls[index := existing];
      return None;
    }

    lemma FeedNext(before: seq<Fragment>, f: Fragment)
      ensures Feed(before + [f]) == match Feed(before) case Err(r) => Err(r) case Ok(s) => Step(s, f)
    {
      assert (before + [f])[..|before|] == before;
    }

    /** The outcome of everything fed; the callbacks spelled out the content. */
    method Finish(rules: Rules) returns (r: Result<Streamed, Refusal>)
      requires Valid()
      ensures OutcomeOf(rules, fed) == match r case Ok(s) => Done(s) case Err(e) => Refused(CategoryOf(e))
      ensures r.Ok? ==> r.value.response.content == NonEmpty(Join(reported))
    {
      FeedCovers(fed);
      if !sawFragment {
        return Err(NoData);
      }
      var built: seq<ToolCall> := [];
      for k := 0 to |order|
        invariant BuildCalls(rules, calls, order[..k]) == Ok(built)
      {
        assert order[..k + 1][..k] == order[..k];
        var call := BuildCall(rules, order[k], calls[order[k]]);
        if call.Err? {
          FirstRefusal(rules, k + 1, call.error);
          return Err(call.error);
        }
        built := built + [call.value];
      }
      assert order[..|order|] == order;
      return Ok(Streamed(
                  ModelResponse(NonEmpty(Join(texts)), if built != [] then Some("tool_calls") else NonEmpty(finishReason), usage, built),
                  NonEmpty(Join(reasonings))));
    }

    lemma {:induction false} FirstRefusal(rules: Rules, k: nat, r: Refusal)
      requires Covers(calls, order) && k <= |order| && BuildCalls(rules, calls, order[..k]) == Err(r)
      ensures BuildCalls(rules, calls, order) == Err(r)
      decreases |order| - k
    {
      if k == |order| {
        assert order[..k] == order;
      } else {
        assert order[..k + 1][..k] == order[..k];
        FirstRefusal(rules, k + 1, r);
      }
    }
  }
}
