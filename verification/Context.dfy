/** Budgeted views of a message history. */
module Context {
  import opened Prelude
  import opened History

  const MIN_TOKEN_SIZE_BYTES: real := 0.5
  const MAX_TOKEN_SIZE_BYTES: real := 6.0
  const DEFAULT_TOKEN_SIZE_BYTES: real := 2.0
  const TOKEN_CALIBRATION_MARGIN: real := 0.9

  /** How a measurement changes the ratio of bytes to tokens: a usable one replaces it by nine
      tenths of what was observed, between 0.5 and 6.0; any other leaves it. */
  ghost predicate Calibrates(before: real, requestBytes: int, promptTokens: Option<int>, after: real) {
    if promptTokens.None? || promptTokens.value < 1 || requestBytes < 1 then after == before
    else
      var observed := (requestBytes as real) / (promptTokens.value as real) * 0.9;
      after == if observed < 0.5 then 0.5 else if observed > 6.0 then 6.0 else observed
  }

  /** A token limit expressed in bytes through a ratio the provider calibrates. */
  class TokenBudget {
    const maxTokens: nat
    var bytesPerToken: real

    ghost predicate Valid()
      reads this
    {
      maxTokens >= 1 && MIN_TOKEN_SIZE_BYTES <= bytesPerToken <= MAX_TOKEN_SIZE_BYTES
    }

    constructor (maxTokens: nat)
      requires maxTokens >= 1
      ensures Valid() && this.maxTokens == maxTokens && bytesPerToken == DEFAULT_TOKEN_SIZE_BYTES
    {
      this.maxTokens := maxTokens;
      bytesPerToken := DEFAULT_TOKEN_SIZE_BYTES;
    }

    function ByteLimit(): (limit: int)
      reads this
      ensures WholePart(limit, maxTokens, bytesPerToken)
    {
      Max(1, ((maxTokens as real) * bytesPerToken).Floor)
    }

    /** A usable measurement replaces the ratio by a clamped one; any other is ignored. */
    method Observe(requestBytes: int, promptTokens: Option<int>)
      requires Valid()
      modifies this
      ensures Valid()
      ensures Calibrates(old(bytesPerToken), requestBytes, promptTokens, bytesPerToken)
    {
      if promptTokens.None? || promptTokens.value < 1 || requestBytes < 1 {
        return;
      }
      var observed := (requestBytes as real) / (promptTokens.value as real) * TOKEN_CALIBRATION_MARGIN;
      var raised := if observed > MIN_TOKEN_SIZE_BYTES then observed else MIN_TOKEN_SIZE_BYTES;
      bytesPerToken := if raised < MAX_TOKEN_SIZE_BYTES then raised else MAX_TOKEN_SIZE_BYTES;
    }
  }

  // ----- interaction groups -----

  function HasAssistant(ms: seq<Message>): bool {
    ms != [] && (ms[|ms| - 1].Assistant? || HasAssistant(ms[..|ms| - 1]))
  }

  /** An assistant message opens a group; what follows belongs to it. */
  function Groups(ms: seq<Message>): (groups: seq<seq<Message>>)
    ensures ms != [] ==> groups != []
  {
    if ms == [] then []
    else
      var init, m := ms[..|ms| - 1], ms[|ms| - 1];
      var earlier := Groups(init);
      if m.Assistant? || !HasAssistant(init) then earlier + [[m]]
      else
        assert init != [];
        earlier[..|earlier| - 1] + [earlier[|earlier| - 1] + [m]]
  }

  function Flatten(groups: seq<seq<Message>>): seq<Message> {
    if groups == [] then [] else Flatten(groups[..|groups| - 1]) + groups[|groups| - 1]
  }

  lemma FlattenLast(groups: seq<seq<Message>>, g: seq<Message>)
    ensures Flatten(groups + [g]) == Flatten(groups) + g
  {
    assert (groups + [g])[..|groups|] == groups;
  }

  lemma {:induction false} FlattenConcat(a: seq<seq<Message>>, b: seq<seq<Message>>)
    ensures Flatten(a + b) == Flatten(a) + Flatten(b)
  {
    if b == [] {
      assert a + b == a;
    } else {
      var init, g := b[..|b| - 1], b[|b| - 1];
      FlattenConcat(a, init);
      assert a + b == (a + init) + [g];
      FlattenLast(a + init, g);
      ConcatAssociates(Flatten(a), Flatten(init), g);
    }
  }

  /** Groups cut a history without losing or reordering anything. */
  lemma {:induction false} GroupsFlatten(ms: seq<Message>)
    ensures Flatten(Groups(ms)) == ms
  {
    hide Flatten;
    if ms == [] {
      FlattenEmpty();
    } else {
      var init, m := ms[..|ms| - 1], ms[|ms| - 1];
      var earlier := Groups(init);
      GroupsFlatten(init);
      if m.Assistant? || !HasAssistant(init) {
        FlattenLast(earlier, [m]);
      } else {
        var front, last := earlier[..|earlier| - 1], earlier[|earlier| - 1];
        assert front + [last] == earlier;
        FlattenLast(front, last);
        FlattenLast(front, last + [m]);
        ConcatAssociates(Flatten(front), last, [m]);
      }
    }
  }

  lemma FlattenEmpty()
    ensures Flatten([]) == []
  {
  }

  ghost predicate StartsWithAssistant(g: seq<Message>) {
    g != [] && g[0].Assistant?
  }

  /** An assistant message and what followed it, up to the next one. */
  ghost predicate Interaction(g: seq<Message>) {
    StartsWithAssistant(g) && forall i :: 1 <= i < |g| ==> !g[i].Assistant?
  }

  /** A message before the first assistant message. */
  ghost predicate Leading(g: seq<Message>) {
    |g| == 1 && !g[0].Assistant?
  }

  /** Every group is one interaction, except that messages before the first assistant
      message stand alone. */
  lemma {:induction false} GroupsStartWithAssistant(ms: seq<Message>)
    ensures forall g :: g in Groups(ms) ==> Interaction(g) || Leading(g)
    ensures ms != [] && ms[0].Assistant? ==> HasAssistant(ms) && forall g :: g in Groups(ms) ==> Interaction(g)
    ensures HasAssistant(ms) ==> Interaction(Groups(ms)[|Groups(ms)| - 1])
  {
    if ms != [] {
      var init, m := ms[..|ms| - 1], ms[|ms| - 1];
      GroupsStartWithAssistant(init);
      var earlier := Groups(init);
      if !m.Assistant? && HasAssistant(init) {
        ExtendInteraction(earlier[|earlier| - 1], m);
      }
    }
  }

  lemma ExtendInteraction(g: seq<Message>, m: Message)
    requires Interaction(g) && !m.Assistant?
    ensures Interaction(g + [m])
  {
  }

  /** The source's single pass with a current group. */
  method InteractionGroups(ms: seq<Message>) returns (groups: seq<seq<Message>>)
    ensures groups == Groups(ms)
  {
    groups := [];
    var current: seq<Message> := [];
    for k := 0 to |ms|
      invariant current == [] <==> !HasAssistant(ms[..k])
      invariant Groups(ms[..k]) == if current == [] then groups else groups + [current]
    {
      assert ms[..k + 1][..k] == ms[..k];
      var message := ms[k];
      if message.Assistant? {
        if current != [] {
          groups := groups + [current];
        }
        current := [message];
      } else if current != [] {
        current := current + [message];
      } else {
        groups := groups + [[message]];
      }
    }
    assert ms[..|ms|] == ms;
    if current != [] {
      groups := groups + [current];
    }
  }

  // ----- views -----

  datatype View = View(messages: seq<Message>, byteCount: nat, removed: nat)

  datatype BuildError = PendingResults | TooFewMessages | BudgetExceeded

  function SystemText(m: Message): string {
    match m
    case System(prompt) => prompt
    case User(text) => text
    case Assistant(r) => (match r.content case Some(c) => c case None => "")
    case Tool(_, content) => content.text
  }

  /** The system message with the program's own facts, the task, and the newest groups. */
  function Assemble(ms: seq<Message>, summary: nat -> string, removed: nat): seq<Message>
    requires |ms| >= 2 && removed <= |Groups(ms[2..])|
  {
    [System(SystemText(ms[0]) + "\n\n" + summary(removed)), ms[1]] + Flatten(Groups(ms[2..])[removed..])
  }

  lemma StartIsSystemThenUser(ms: seq<Message>)
    requires Legal(ms) && |ms| >= 2
    ensures ms[0].System? && ms[1].User?
    ensures Replay(START, ms[..2]) == Ok(Mode(AfterUser, multiset{}))
    ensures |ms| > 2 ==> ms[2].Assistant?
  {
    hide Replay;
    LegalPrefix(ms, 0);
    assert ms[..0] == [] && ms[0..] == ms;
    ReplayNothing(START);
    ReplayHead(START, ms);
    var m1 := Next(START, ms[0]).value;
    ReplayHead(m1, ms[1..]);
    var m2 := Next(m1, ms[1]).value;
    assert ms[1..][0] == ms[1] && ms[1..][1..] == ms[2..];
    TwoSteps(ms, m1, m2);
    if |ms| > 2 {
      ReplayHead(m2, ms[2..]);
    }
  }

  lemma TwoSteps(ms: seq<Message>, m1: Mode, m2: Mode)
    requires |ms| >= 2 && Next(START, ms[0]) == Ok(m1) && Next(m1, ms[1]) == Ok(m2)
    ensures Replay(START, ms[..2]) == Ok(m2)
  {
    ReplayOne(START, ms[0]);
    assert ms[..2][..1] == [ms[0]];
  }

  /** An assistant message forgets how the group before it ended. */
  lemma AssistantForgets(mode: Mode, ms: seq<Message>)
    requires StartsWithAssistant(ms) && Replay(mode, ms).Ok?
    ensures Replay(Mode(AfterUser, multiset{}), ms) == Replay(mode, ms)
  {
    hide Replay;
    ReplayHead(mode, ms);
    var other := Mode(AfterUser, multiset{});
    assert Next(other, ms[0]) == Next(mode, ms[0]);
    ReplayConcat(other, [ms[0]], ms[1..]);
    ReplayOne(other, ms[0]);
    assert [ms[0]] + ms[1..] == ms;
  }

  lemma SuffixOfGroups(ms: seq<Message>, removed: nat)
    requires |ms| >= 2 && removed <= |Groups(ms[2..])|
    ensures var groups := Groups(ms[2..]); var cut := 2 + |Flatten(groups[..removed])|;
            && cut <= |ms| && Flatten(groups[removed..]) == ms[cut..]
            && ms[2..cut] == Flatten(groups[..removed])
  {
    var groups := Groups(ms[2..]);
    GroupsFlatten(ms[2..]);
    FlattenConcat(groups[..removed], groups[removed..]);
    assert groups[..removed] + groups[removed..] == groups;
    var a, b := Flatten(groups[..removed]), Flatten(groups[removed..]);
    assert a + b == ms[2..];
    assert ms[2..][|a|..] == b && ms[2..][..|a|] == a;
    assert ms[2..][|a|..] == ms[2 + |a|..];
  }

  lemma {:induction false} FlattenStarts(groups: seq<seq<Message>>)
    requires groups != [] && forall g :: g in groups ==> StartsWithAssistant(g)
    ensures StartsWithAssistant(Flatten(groups))
  {
    var init := groups[..|groups| - 1];
    if init != [] {
      FlattenStarts(init);
    }
    assert groups[|groups| - 1] in groups;
  }

  function Assistants(ms: seq<Message>): nat {
    if ms == [] then 0 else Assistants(ms[..|ms| - 1]) + if ms[|ms| - 1].Assistant? then 1 else 0
  }

  lemma {:induction false} AssistantsConcat(a: seq<Message>, b: seq<Message>)
    ensures Assistants(a + b) == Assistants(a) + Assistants(b)
  {
    if b == [] {
      assert a + b == a;
    } else {
      AssistantsConcat(a, b[..|b| - 1]);
      assert (a + b)[..|a + b| - 1] == a + b[..|b| - 1];
    }
  }

  lemma {:induction false} OneAssistant(g: seq<Message>)
    requires Interaction(g)
    ensures Assistants(g) == 1
  {
    if |g| > 1 {
      OneAssistant(g[..|g| - 1]);
    } else {
      assert g[..0] == [];
    }
  }

  lemma {:induction false} OneAssistantEach(groups: seq<seq<Message>>)
    requires forall g :: g in groups ==> Interaction(g)
    ensures Assistants(Flatten(groups)) == |groups|
  {
    if groups != [] {
      var init, g := groups[..|groups| - 1], groups[|groups| - 1];
      OneAssistantEach(init);
      OneAssistant(g);
      AssistantsConcat(Flatten(init), g);
    }
  }

  /** `view` shows the history `ms` with `removed` interactions left out: the system prompt
      with the program's own text after it, the task, and the messages from one assistant
      message on, or none. */
  ghost predicate Shows(ms: seq<Message>, text: string, removed: nat, view: seq<Message>) {
    && |ms| >= 2 && ms[0].System?
    && exists cut :: 2 <= cut <= |ms| && ShowsFrom(ms, text, removed, view, cut)
  }

  ghost predicate ShowsFrom(ms: seq<Message>, text: string, removed: nat, view: seq<Message>, cut: nat)
    requires 2 <= cut <= |ms| && ms[0].System?
  {
    && view == [System(ms[0].prompt + "\n\n" + text), ms[1]] + ms[cut..]
    && (cut < |ms| ==> ms[cut].Assistant?)
    && Assistants(ms[2..cut]) == removed
  }

  /** Every view is itself a complete legal history: system, task, and a suffix of
      whole assistant and result groups. */
  lemma ViewIsLegal(ms: seq<Message>, summary: nat -> string, removed: nat)
    requires Complete(ms) && |ms| >= 2 && removed <= |Groups(ms[2..])|
    ensures Complete(Assemble(ms, summary, removed))
    ensures Shows(ms, summary(removed), removed, Assemble(ms, summary, removed))
  {
    hide Replay, Groups, Flatten, Next, Shows;
    StartIsSystemThenUser(ms);
    SuffixOfGroups(ms, removed);
    var groups := Groups(ms[2..]);
    var cut := 2 + |Flatten(groups[..removed])|;
    var view := Assemble(ms, summary, removed);
    var fixed := view[..2];
    assert view == fixed + ms[cut..];
    FixedMode(fixed);
    ReplayConcat(START, fixed, ms[cut..]);
    LegalPrefix(ms, cut);
    StartsAtAssistant(ms, removed);
    if removed == |groups| {
      assert groups[removed..] == [];
      FlattenEmpty();
      ReplayNothing(Mode(AfterUser, multiset{}));
    } else {
      AssistantForgets(Replay(START, ms[..cut]).value, ms[cut..]);
    }
    AssembledShows(ms, summary, removed);
  }

  lemma StartsAtAssistant(ms: seq<Message>, removed: nat)
    requires Legal(ms) && |ms| >= 2 && removed <= |Groups(ms[2..])|
    ensures var groups := Groups(ms[2..]);
            && (forall g :: g in groups ==> Interaction(g))
            && (removed < |groups| ==> StartsWithAssistant(Flatten(groups[removed..])))
  {
    hide Replay, Groups, Flatten, Legal;
    StartIsSystemThenUser(ms);
    GroupsStartWithAssistant(ms[2..]);
    var groups := Groups(ms[2..]);
    if |groups| > 0 {
      NonemptyGroups(ms);
    }
    if removed < |groups| {
      assert forall g :: g in groups[removed..] ==> g in groups;
      FlattenStarts(groups[removed..]);
    }
  }

  lemma AssembledShows(ms: seq<Message>, summary: nat -> string, removed: nat)
    requires Legal(ms) && |ms| >= 2 && removed <= |Groups(ms[2..])|
    ensures Shows(ms, summary(removed), removed, Assemble(ms, summary, removed))
  {
    hide Replay, Groups, Flatten, Legal, Interaction;
    StartIsSystemThenUser(ms);
    SuffixOfGroups(ms, removed);
    StartsAtAssistant(ms, removed);
    var groups := Groups(ms[2..]);
    var front := Flatten(groups[..removed]);
    var cut := 2 + |front|;
    assert forall g :: g in groups[..removed] ==> g in groups;
    OneAssistantEach(groups[..removed]);
    if removed == |groups| {
      assert groups[removed..] == [];
      FlattenEmpty();
    }
    assert ShowsFrom(ms, summary(removed), removed, Assemble(ms, summary, removed), cut);
  }

  lemma NonemptyGroups(ms: seq<Message>)
    requires |ms| >= 2 && |Groups(ms[2..])| > 0
    ensures |ms| > 2
  {
    assert Groups([]) == [];
  }

  lemma FixedMode(fixed: seq<Message>)
    requires |fixed| == 2 && fixed[0].System? && fixed[1].User?
    ensures Replay(START, fixed) == Ok(Mode(AfterUser, multiset{}))
  {
    assert fixed[..1][..0] == [];
    assert fixed[..1] == [fixed[0]];
    assert Replay(START, fixed[..1]) == Ok(Mode(AfterSystem, multiset{}));
  }

  /** The size of the view for every number of removed groups. */
  function ViewSizes(ms: seq<Message>, measure: seq<Message> -> nat, summary: nat -> string): (sizes: seq<nat>)
    requires |ms| >= 2
    ensures |sizes| == |Groups(ms[2..])| + 1
    ensures forall k :: 0 <= k < |sizes| ==> sizes[k] == measure(Assemble(ms, summary, k))
  {
    seq<nat>(|Groups(ms[2..])| + 1, k requires 0 <= k <= |Groups(ms[2..])| => measure(Assemble(ms, summary, k)))
  }

  /** None, when the whole history fits the budget; else the fewest groups whose removal
      meets the target, and if no removal does, the most that may be removed. */
  ghost predicate BestCount(budget: int, target: int, top: nat, sizes: seq<nat>, removed: nat)
    requires top < |sizes|
  {
    || (removed == 0 && sizes[0] <= budget)
    || (sizes[0] > budget && 1 <= removed <= top && sizes[removed] <= target &&
        forall j :: 1 <= j < removed ==> sizes[j] > target)
    || (sizes[0] > budget && removed == top && sizes[top] <= budget &&
        forall j :: 1 <= j <= top ==> sizes[j] > target)
  }

  class ContextManager {
    const budgetBytes: nat
    const targetRatio: real
    const minRecentGroups: nat
    const tokenBudget: TokenBudget?

    ghost predicate Valid()
      reads this, tokenBudget
    {
      budgetBytes >= 1 && 0.0 < targetRatio <= 1.0 && (tokenBudget != null ==> tokenBudget.Valid())
    }

    constructor (budgetBytes: nat, targetRatio: real, minRecentGroups: nat, tokenBudget: TokenBudget?)
      requires budgetBytes >= 1 && 0.0 < targetRatio <= 1.0
      requires tokenBudget != null ==> tokenBudget.Valid()
      ensures Valid() && this.budgetBytes == budgetBytes && this.tokenBudget == tokenBudget
      ensures this.targetRatio == targetRatio && this.minRecentGroups == minRecentGroups
    {
      this.budgetBytes, this.targetRatio := budgetBytes, targetRatio;
      this.minRecentGroups, this.tokenBudget := minRecentGroups, tokenBudget;
    }

    /** A token budget only tightens the byte budget. */
    function EffectiveBudget(): (limit: int)
      reads this, tokenBudget
      requires Valid()
      ensures 1 <= limit <= budgetBytes
      ensures tokenBudget != null ==> limit <= tokenBudget.ByteLimit()
      ensures limit == budgetBytes || (tokenBudget != null && limit == tokenBudget.ByteLimit())
    {
      if tokenBudget == null then budgetBytes else Min(budgetBytes, tokenBudget.ByteLimit())
    }

    function TargetBytes(): (target: int)
      reads this, tokenBudget
      requires Valid()
      ensures WholePart(target, EffectiveBudget(), targetRatio)
    {
      Max(1, ((EffectiveBudget() as real) * targetRatio).Floor)
    }

    method ObserveUsage(requestBytes: int, promptTokens: Option<int>)
      requires Valid()
      modifies tokenBudget
      ensures Valid()
      ensures tokenBudget != null ==>
                Calibrates(old(tokenBudget.bytesPerToken), requestBytes, promptTokens, tokenBudget.bytesPerToken)
    {
      if tokenBudget != null {
        tokenBudget.Observe(requestBytes, promptTokens);
      }
    }

    /** The most groups a view may leave out. */
    function MaxRemoved(count: nat): (top: nat)
      ensures if top == 0 then count <= minRecentGroups else count - top == minRecentGroups
    {
      if count > minRecentGroups then count - minRecentGroups else 0
    }

    /** Which number of removed groups is right, given the size of every candidate view. */
    ghost predicate RightCount(sizes: seq<nat>, removed: nat)
      reads this, tokenBudget
      requires Valid() && sizes != []
    {
      BestCount(EffectiveBudget(), TargetBytes(), MaxRemoved(|sizes| - 1), sizes, removed)
    }

    /** No candidate meets the target, and the smallest one exceeds the budget. */
    ghost predicate NothingFits(sizes: seq<nat>)
      reads this, tokenBudget
      requires Valid() && sizes != []
    {
      var top := MaxRemoved(|sizes| - 1);
      && sizes[0] > EffectiveBudget() && sizes[top] > EffectiveBudget()
      && forall j :: 1 <= j <= top ==> sizes[j] > TargetBytes()
    }

    lemma OneCountOrNone(sizes: seq<nat>, a: nat, b: nat)
      requires Valid() && sizes != []
      ensures RightCount(sizes, a) && RightCount(sizes, b) ==> a == b
      ensures !(RightCount(sizes, a) && NothingFits(sizes))
    {
      TargetWithinBudget();
    }

    /** Leave out as few groups as it takes, or fail when even the smallest view is too big. */
    method Build(h: MessageHistory, measure: seq<Message> -> nat, summary: nat -> string)
      returns (r: Result<View, BuildError>)
      requires Valid() && h.Valid()
      ensures h.pending != multiset{} <==> r == Err(PendingResults)
      ensures h.pending == multiset{} && |h.messages| < 2 <==> r == Err(TooFewMessages)
      ensures h.pending == multiset{} && |h.messages| >= 2 ==>
                var sizes := ViewSizes(h.messages, measure, summary);
                match r
                case Err(e) => e == BudgetExceeded && NothingFits(sizes)
                case Ok(view) =>
                  && view.removed < |sizes| && RightCount(sizes, view.removed)
                  && view.messages == Assemble(h.messages, summary, view.removed)
                  && view.byteCount == sizes[view.removed] <= EffectiveBudget()
                  && Complete(view.messages)
                  && Shows(h.messages, summary(view.removed), view.removed, view.messages)
    {
      hide Groups, Flatten, Assemble, Complete, Shows;
      if h.pending != multiset{} {
        return Err(PendingResults);
      }
      if |h.messages| < 2 {
        return Err(TooFewMessages);
      }
      var ms := h.messages;
      HistoryIsComplete(h);
      TargetWithinBudget();
      var groups := InteractionGroups(ms[2..]);
      ghost var sizes := ViewSizes(ms, measure, summary);
      var budget, target := EffectiveBudget(), TargetBytes();
      var removed := 0;
      var messages := Assemble(ms, summary, removed);
      var bytes := measure(messages);
      if bytes <= budget {
        ViewIsLegal(ms, summary, 0);
        return Ok(View(messages, bytes, 0));
      }
      while |groups| - removed > minRecentGroups
        invariant removed <= MaxRemoved(|groups|) <= |groups|
        invariant forall j :: 1 <= j <= removed ==> sizes[j] > target
        decreases |groups| - removed
      {
        removed := removed + 1;
        messages := Assemble(ms, summary, removed);
        bytes := measure(messages);
        if bytes <= target {
          ViewIsLegal(ms, summary, removed);
          return Ok(View(messages, bytes, removed));
        }
      }
      messages := Assemble(ms, summary, removed);
      bytes := measure(messages);
      if bytes > budget {
        return Err(BudgetExceeded);
      }
      ViewIsLegal(ms, summary, removed);
      return Ok(View(messages, bytes, removed));
    }

    lemma TargetWithinBudget()
      requires Valid()
      ensures TargetBytes() <= EffectiveBudget()
    {
      var b := EffectiveBudget() as real;
      assert b * targetRatio <= b;
    }

    lemma HistoryIsComplete(h: MessageHistory)
      requires h.Valid() && h.pending == multiset{}
      ensures Complete(h.messages)
    {
    }
  }
}
