/** What surrounds the agent loop: the model service, the tools, the clock and the
    cancel request. Each answers as it likes; the host only keeps a record of what was
    asked of it. */
module Host {
  import opened Prelude
  import opened History
  import opened Evidence

  datatype Reply =
    | Answered(response: ModelResponse)
    | RequestFailed(category: string, retryable: bool, retryAfter: Option<real>)
    | OtherFailure
    | RequestInterrupted
    | RequestRaised

  /** One request, as it was sent, and its reply. */
  datatype Exchange = Exchange(request: seq<Message>, reply: Reply)

  /** A failure that may pass. */
  predicate Transient(reply: Reply) {
    reply.RequestFailed? && reply.retryable
  }

  datatype Preparation = Prepared | Refused(result: ToolResult)

  datatype FinishParse = Asked(request: FinishRequest) | BadRequest(result: ToolResult) | ParseInterrupted

  /** The steps of a run that may raise an exception nobody expects: recording an event,
      preparing calls, measuring a view, asking the model. Calls are numbered. */
  datatype Step =
    | Measuring
    | CompactionEvent
    | Requesting
    | RetryEvent
    | ModelEvent
    | CallEvent(call: int)
    | TruncationEvent
    | RepairEvent
    | Preparing(call: int)
    | ParsingFinish
    | ApprovalEvents(call: int)
    | ResultEvents(call: int)
    | CompletionEvent
    | RepeatEvent
  {
    /** Before the model has answered, and between two turns. */
    predicate BetweenTurns() {
      Measuring? || CompactionEvent? || Requesting? || RetryEvent?
    }

    /** While the response itself is recorded, before its calls are counted. */
    predicate Announcing() {
      ModelEvent? || CallEvent? || TruncationEvent? || RepairEvent?
    }

    /** While the calls of a response are prepared, executed and answered. */
    predicate Executing() {
      Preparing? || ParsingFinish? || ApprovalEvents? || ResultEvents?
    }

    /** The step comes before the result of call `i` is in the history. */
    predicate Precedes(i: int) {
      match this
      case ApprovalEvents(k) => k <= i
      case ResultEvents(k) => k < i
      case CompletionEvent => false
      case RepeatEvent => false
      case _ => true
    }

    /** How many of `count` calls have their result when the step raises. */
    function Answered(count: int): int {
      match this
      case ApprovalEvents(k) => k
      case ResultEvents(k) => k + 1
      case CompletionEvent => count
      case RepeatEvent => count
      case _ => 0
    }
  }

  class Host {
    var now: real
    /** Seconds spent waiting for a person to approve a command. */
    var waited: real
    /** Seconds slept between attempts. */
    var slept: real
    var exchanges: seq<Exchange>
    /** What validating each call gave. */
    var checks: seq<Preparation>
    var executed: seq<Effect>
    /** What the last finish request was read as. */
    var parsed: Option<FinishParse>
    /** Whether the run was ever asked to stop, by a cancel request or an interrupt. */
    var stopAsked: bool
    /** The step that raised, which ends the run. */
    var raised: Option<Step>
    /** Whether it raised of its own accord. */
    var struck: bool

    constructor ()
      ensures waited == slept == 0.0 && exchanges == [] && executed == [] && !stopAsked && raised == None && !struck
    {
      now, waited, slept, exchanges, executed, stopAsked := 0.0, 0.0, 0.0, [], [], false;
      checks, parsed, raised, struck := [], None, None, false;
    }

    /** Take a step, which may raise, and surely does if `surely` is set. */
    method Take(step: Step, surely: bool)
      requires raised == None
      modifies this`raised, this`struck
      ensures raised in {None, Some(step)} && (surely ==> raised == Some(step))
      ensures raised.Some? ==> struck || surely
    {
      var fails: bool := *;
      if surely || fails {
        raised, struck := Some(step), fails;
      }
    }

    /** A monotone clock. */
    method Clock() returns (t: real)
      modifies this`now
      ensures t == now >= old(now)
    {
      var passed: real := *;
      now := if passed > 0.0 then now + passed else now;
      t := now;
    }

    method Sleep(d: real)
      requires d >= 0.0
      modifies this`now, this`slept
      ensures slept == old(slept) + d && now >= old(now) + d
    {
      var _ := Clock();
      now, slept := now + d, slept + d;
    }

    method RandomValue() returns (r: real)
      ensures 0.0 <= r <= 1.0
    {
      r := *;
      if r < 0.0 || 1.0 < r {
        r := 0.5;
      }
    }

    method CancelRequested() returns (b: bool)
      modifies this`stopAsked
      ensures stopAsked == (old(stopAsked) || b)
    {
      b := *;
      stopAsked := stopAsked || b;
    }

    /** Send one request to the model; only a complete history may be sent. */
    method Request(view: seq<Message>) returns (reply: Reply)
      requires Complete(view) && raised == None
      modifies this`now, this`exchanges, this`stopAsked, this`raised, this`struck
      ensures exchanges == old(exchanges) + [Exchange(view, reply)] && now >= old(now)
      ensures stopAsked == (old(stopAsked) || reply.RequestInterrupted?)
      ensures raised == (if reply.RequestRaised? then Some(Requesting) else None) && (raised.Some? ==> struck)
    {
      var _ := Clock();
      reply := *;
      exchanges, stopAsked := exchanges + [Exchange(view, reply)], stopAsked || reply.RequestInterrupted?;
      if reply.RequestRaised? {
        raised, struck := Some(Requesting), true;
      }
    }

    /** Validate one call without side effects; None is an interrupt. */
    method Prepare(call: ToolCall) returns (p: Option<Preparation>)
      modifies this`stopAsked, this`checks
      ensures p.Some? && p.value.Refused? ==> !p.value.result.ok
      ensures checks == old(checks) + if p.Some? then [p.value] else []
      ensures stopAsked == (old(stopAsked) || p == None)
    {
      p := *;
      stopAsked := stopAsked || p == None;
      if p.Some? && p.value.Refused? {
        p := Some(Refused(p.value.result.(ok := false)));
      }
      checks := checks + if p.Some? then [p.value] else [];
    }

    /** Execute one prepared call; None is an interrupt, which may come after an effect. */
    method Execute(call: ToolCall) returns (result: Option<ToolResult>)
      modifies this`now, this`waited, this`executed, this`stopAsked
      ensures executed == old(executed) + [Effect(call, result)] && stopAsked == (old(stopAsked) || result == None)
      ensures now - waited >= old(now - waited) && waited >= old(waited)
    {
      var asked: real := *;
      if asked > 0.0 {
        now, waited := now + asked, waited + asked;
      }
      var _ := Clock();
      result := *;
      executed := executed + [Effect(call, result)];
      stopAsked := stopAsked || result == None;
    }

    method ParseFinish(call: ToolCall) returns (p: FinishParse)
      modifies this`stopAsked, this`parsed
      ensures p.BadRequest? ==> !p.result.ok
      ensures parsed == Some(p)
      ensures stopAsked == (old(stopAsked) || p.ParseInterrupted?)
    {
      p := *;
      stopAsked := stopAsked || p.ParseInterrupted?;
      if p.BadRequest? {
        p := BadRequest(p.result.(ok := false));
      }
      parsed := Some(p);
    }
  }

  // ----- retry delays -----

  const BASE_RETRY_DELAY_SECONDS: real := 0.5
  const MAX_RETRY_DELAY_SECONDS: real := 8.0
  const MAX_RETRY_AFTER_SECONDS: real := 30.0
  const RETRY_JITTER_RATIO: real := 0.25

  function RealMin(a: real, b: real): real {
    if b < a then b else a
  }

  function RealMax(a: real, b: real): real {
    if b > a then b else a
  }

  function PowerOfTwo(n: nat): (p: real)
    ensures p >= 1.0
  {
    if n == 0 then 1.0 else 2.0 * PowerOfTwo(n - 1)
  }

  function Exponential(retryNumber: nat): real
    requires retryNumber >= 1
  {
    RealMin(BASE_RETRY_DELAY_SECONDS * PowerOfTwo(retryNumber - 1), MAX_RETRY_DELAY_SECONDS)
  }

  function Jittered(delay: real, randomValue: real): real {
    delay + delay * RETRY_JITTER_RATIO * randomValue
  }

  function RetryDelay(retryAfter: Option<real>, retryNumber: nat, randomValue: real): real
    requires retryNumber >= 1
  {
    var jittered := Jittered(Exponential(retryNumber), randomValue);
    var delay :=
      if retryAfter.Some? && retryAfter.value >= 0.0
      then RealMax(jittered, RealMin(retryAfter.value, MAX_RETRY_AFTER_SECONDS))
      else jittered;
    RealMin(delay, MAX_RETRY_AFTER_SECONDS)
  }

  /** Every delay lies between half a second and thirty, honours a provider's wish up to
      thirty seconds, stays within ten without one, and does not shrink from one retry to
      the next for equal answers. */
  lemma RetryDelayBounds(retryAfter: Option<real>, retryNumber: nat, randomValue: real)
    requires retryNumber >= 1 && 0.0 <= randomValue <= 1.0
    ensures 0.5 <= RetryDelay(retryAfter, retryNumber, randomValue) <= 30.0
    ensures retryAfter.Some? && retryAfter.value <= 30.0 ==>
              retryAfter.value <= RetryDelay(retryAfter, retryNumber, randomValue)
    ensures retryAfter.None? ==> RetryDelay(retryAfter, retryNumber, randomValue) <= 10.0
    ensures RetryDelay(retryAfter, retryNumber, randomValue) <= RetryDelay(retryAfter, retryNumber + 1, randomValue)
  {
    hide Jittered, Exponential;
    DelaysGrow(retryNumber);
    JitterBounds(Exponential(retryNumber), Exponential(retryNumber + 1), randomValue);
  }

  /** A delay there may be before a retry. */
  ghost predicate PossibleDelay(retryAfter: Option<real>, retryNumber: nat, delay: real) {
    retryNumber >= 1 && exists random :: 0.0 <= random <= 1.0 && delay == RetryDelay(retryAfter, retryNumber, random)
  }

  /** Without a usable wish the first delay is half a second and every further one twice
      the one before, up to eight seconds, each lengthened by up to a quarter; a wish of
      up to thirty seconds can only lengthen it. */
  lemma RetryDelayDoubles(retryAfter: Option<real>, retryNumber: nat, random: real)
    requires retryNumber >= 1 && 0.0 <= random <= 1.0
    ensures var own, next := RetryDelay(None, retryNumber, random), RetryDelay(None, retryNumber + 1, random);
            && RetryDelay(None, 1, random) == 0.5 + 0.125 * random
            && next == RealMin(own + own, 8.0 + 2.0 * random)
    ensures var own := RetryDelay(None, retryNumber, random);
            RetryDelay(retryAfter, retryNumber, random) ==
            if retryAfter.None? || retryAfter.value < own then own
            else if retryAfter.value <= 30.0 then retryAfter.value
            else 30.0
  {
    hide Jittered, Exponential;
    DelaysGrow(retryNumber);
    JitterBounds(Exponential(retryNumber), Exponential(retryNumber + 1), random);
    ExponentialDoubles(retryNumber);
    JitterDoubles(Exponential(retryNumber), random);
    JitterFixed(random);
    FirstExponential();
  }

  lemma FirstExponential()
    ensures Exponential(1) == 0.5
  {
    assert PowerOfTwo(0) == 1.0;
  }

  lemma ExponentialDoubles(n: nat)
    requires n >= 1
    ensures Exponential(n + 1) == RealMin(Exponential(n) + Exponential(n), 8.0)
  {
    assert PowerOfTwo(n) == 2.0 * PowerOfTwo(n - 1);
  }

  lemma JitterDoubles(a: real, r: real)
    requires 0.5 <= a <= 8.0 && 0.0 <= r <= 1.0
    ensures Jittered(a + a, r) == Jittered(a, r) + Jittered(a, r)
    ensures Jittered(RealMin(a + a, 8.0), r) == RealMin(Jittered(a + a, r), Jittered(8.0, r))
  {
    var x := a * RETRY_JITTER_RATIO;
    assert x == 0.25 * a && (a + a) * RETRY_JITTER_RATIO == x + x;
    assert (x + x) * r == x * r + x * r;
    assert Jittered(a + a, r) == a + a + (x + x) * r;
    JitterFixed(r);
    if a + a < 8.0 {
      ProductGrows(x + x, 2.0, r);
      assert Jittered(a + a, r) <= Jittered(8.0, r);
    } else {
      ProductGrows(2.0, x + x, r);
      assert Jittered(8.0, r) <= Jittered(a + a, r);
    }
  }

  lemma JitterFixed(r: real)
    ensures Jittered(8.0, r) == 8.0 + 2.0 * r && Jittered(0.5, r) == 0.5 + 0.125 * r
  {
  }

  lemma DelaysGrow(n: nat)
    requires n >= 1
    ensures 0.5 <= Exponential(n) <= Exponential(n + 1) <= 8.0
  {
    assert PowerOfTwo(n) == 2.0 * PowerOfTwo(n - 1);
  }

  lemma JitterBounds(a: real, b: real, r: real)
    requires 0.5 <= a <= b <= 8.0 && 0.0 <= r <= 1.0
    ensures 0.5 <= Jittered(a, r) <= Jittered(b, r) <= 10.0
  {
    var x, y := a * RETRY_JITTER_RATIO, b * RETRY_JITTER_RATIO;
    assert x == 0.25 * a && y == 0.25 * b;
    assert Jittered(a, r) == a + x * r && Jittered(b, r) == b + y * r;
    ProductGrows(x, y, r);
    ProductGrows(0.0, x, r);
    ProductGrows(r, 1.0, y);
  }

  lemma ProductGrows(x: real, y: real, r: real)
    requires x <= y && 0.0 <= r
    ensures x * r <= y * r && r * x <= r * y
  {
    assert (y - x) * r >= 0.0;
    assert y * r == x * r + (y - x) * r;
  }
}
