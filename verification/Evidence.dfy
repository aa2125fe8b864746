/** Program-owned evidence: which files the run changed, which commands it ran, and
    whether a verification still stands. */
module Evidence {
  import opened Prelude
  import opened History

  datatype ResultData =
    | NoData
    | PathData(path: string)
    | CommandData(argv: seq<string>, cwd: string, exitCode: Option<int>, timedOut: bool, kind: string)
    | OtherData

  /** A result envelope; `detail` stands for the rest of it: message, other data, meta. */
  datatype ToolResult = ToolResult(ok: bool, code: string, data: ResultData, detail: string)

  /** A call that is passed to its tool, and its answer; an interrupted one has none. */
  datatype Effect = Effect(call: ToolCall, answer: Option<ToolResult>)

  datatype CommandObservation = CommandObservation(
    argv: seq<string>, cwd: string, exitCode: Option<int>, timedOut: bool, kind: string,
    event: nat, accepted: bool)

  /** One event of the run: a tool that executed, or a finish request. */
  datatype Execution = Ran(tool: string, result: ToolResult) | FinishAsked

  datatype Facts = Facts(
    event: nat,
    lastModified: map<string, nat>,
    changed: seq<string>,
    observations: seq<CommandObservation>,
    latest: Option<CommandObservation>)

  const MODIFICATION_TOOLS: set<string> := {"create_file", "replace_in_file"}
  const VERIFICATION_KINDS: set<string> := {"test", "build", "static_check"}

  /** Tools registered as modifying the workspace. */
  const WRITING_TOOLS: set<string> :=
    {"create_file", "replace_in_file", "patch_file", "delete_path", "move_path", "make_directory"}

  type PathRule = string -> Option<string>

  // ----- events -----

  /** The path a result shows as modified, if the tracker records it. */
  function ModifiedPath(normalize: PathRule, x: Execution): Option<string> {
    match x
    case Ran(tool, ToolResult(true, _, PathData(path), _)) =>
      if tool in MODIFICATION_TOOLS then normalize(path) else None
    case _ => None
  }

  function ObservedCommand(x: Execution, event: nat): Option<CommandObservation> {
    match x
    case Ran(tool, ToolResult(ok, _, CommandData(argv, cwd, exitCode, timedOut, kind), _)) =>
      if tool == "run_command" && argv != [] then
        Some(CommandObservation(argv, cwd, exitCode, timedOut, kind, event,
                                ok && !timedOut && exitCode == Some(0) && kind in VERIFICATION_KINDS))
      else None
    case _ => None
  }

  /** A success of one of the two tools the tracker has a rule for, with a path that is recorded. */
  predicate TrackedModification(normalize: PathRule, x: Execution) {
    && x.Ran? && (x.tool == "create_file" || x.tool == "replace_in_file")
    && x.result.ok && x.result.data.PathData? && normalize(x.result.data.path).Some?
  }

  /** A successful command result of kind test, build or static check that ran to its end
      and exited with zero. */
  predicate AcceptedVerification(x: Execution) {
    && x.Ran? && x.tool == "run_command" && x.result.ok && x.result.data.CommandData?
    && var d := x.result.data;
       && d.argv != [] && !d.timedOut && d.exitCode == Some(0)
       && (d.kind == "test" || d.kind == "build" || d.kind == "static_check")
  }

  /** Any successful call of a tool that writes the workspace, tracked or not. */
  predicate WritesWorkspace(x: Execution) {
    x.Ran? && x.result.ok && x.tool in WRITING_TOOLS
  }

  const NO_FACTS: Facts := Facts(0, map[], [], [], None)

  function Record(normalize: PathRule, f: Facts, x: Execution): Facts {
    var event := f.event + 1;
    match ModifiedPath(normalize, x)
    case Some(path) =>
      Facts(event, f.lastModified[path := event],
            if path in f.lastModified then f.changed else f.changed + [path],
            f.observations, None)
    case None =>
      match ObservedCommand(x, event)
      case Some(o) => Facts(event, f.lastModified, f.changed, f.observations + [o], if o.accepted then Some(o) else f.latest)
      case None => f.(event := event)
  }

  function FactsOf(normalize: PathRule, log: seq<Execution>): Facts {
    if log == [] then NO_FACTS else Record(normalize, FactsOf(normalize, log[..|log| - 1]), log[|log| - 1])
  }

  // ----- freshness over every run -----

  /** Event `i` verified the workspace and no tracked modification followed it. */
  predicate FreshAt(normalize: PathRule, log: seq<Execution>, i: nat)
    requires i < |log|
  {
    AcceptedVerification(log[i]) && forall j | i < j < |log| :: !TrackedModification(normalize, log[j])
  }

  predicate NewestFreshAt(normalize: PathRule, log: seq<Execution>, i: nat)
    requires i < |log|
  {
    FreshAt(normalize, log, i) && forall j | i < j < |log| :: !AcceptedVerification(log[j])
  }

  lemma {:induction false} EventsCount(normalize: PathRule, log: seq<Execution>)
    ensures FactsOf(normalize, log).event == |log|
  {
    if log != [] {
      EventsCount(normalize, log[..|log| - 1]);
    }
  }

  lemma FreshExtends(normalize: PathRule, log: seq<Execution>, i: nat)
    requires log != [] && i < |log| - 1
    ensures FreshAt(normalize, log, i) <==>
            FreshAt(normalize, log[..|log| - 1], i) && !TrackedModification(normalize, log[|log| - 1])
  {
    var init := log[..|log| - 1];
    if FreshAt(normalize, log, i) {
      forall j | i < j < |init| ensures !TrackedModification(normalize, init[j]) {
        assert init[j] == log[j];
      }
    }
    if FreshAt(normalize, init, i) && !TrackedModification(normalize, log[|log| - 1]) {
      forall j | i < j < |log| ensures !TrackedModification(normalize, log[j]) {
        assert j < |init| ==> log[j] == init[j];
      }
    }
  }

  lemma NotBoth(normalize: PathRule, x: Execution)
    ensures !(TrackedModification(normalize, x) && AcceptedVerification(x))
  {
  }

  lemma ModifiedExactly(normalize: PathRule, x: Execution)
    ensures ModifiedPath(normalize, x) ==
            if TrackedModification(normalize, x) then normalize(x.result.data.path) else None
  {
  }

  /** `o` is what event number `o.event` shows about a command: a result with an argument
      vector, whatever its outcome, marked as accepted exactly when it verifies. */
  predicate Observes(x: Execution, o: CommandObservation) {
    && x.Ran? && x.tool == "run_command" && x.result.data.CommandData? && x.result.data.argv != []
    && var d := x.result.data;
       && o.argv == d.argv && o.cwd == d.cwd && o.exitCode == d.exitCode && o.timedOut == d.timedOut
       && o.kind == d.kind && o.accepted == AcceptedVerification(x)
  }

  lemma TrackedHasPath(normalize: PathRule, x: Execution)
    ensures TrackedModification(normalize, x) <==> ModifiedPath(normalize, x).Some?
  {
  }

  lemma AcceptedEvent(x: Execution, event: nat)
    ensures ObservedCommand(x, event).Some? && ObservedCommand(x, event).value.accepted <==> AcceptedVerification(x)
    ensures forall o :: ObservedCommand(x, event) == Some(o) <==> Observes(x, o) && o.event == event
  {
  }

  /** Every command result with an argument vector is observed once, in the order of the events. */
  lemma {:induction false} ObservedExactly(normalize: PathRule, log: seq<Execution>)
    ensures var seen := FactsOf(normalize, log).observations;
            && (forall o :: o in seen <==> 1 <= o.event <= |log| && Observes(log[o.event - 1], o))
            && (forall i, j :: 0 <= i < j < |seen| ==> seen[i].event < seen[j].event)
  {
    hide ObservedCommand, ModifiedPath, Observes;
    if log != [] {
      var init, x := log[..|log| - 1], log[|log| - 1];
      ObservedExactly(normalize, init);
      EventsCount(normalize, init);
      AcceptedEvent(x, |log|);
      ObservedOrModified(normalize, x);
      RecordObserves(normalize, FactsOf(normalize, init), x);
      forall o: CommandObservation | 1 <= o.event <= |init| ensures log[o.event - 1] == init[o.event - 1] {
      }
    }
  }

  lemma ObservedOrModified(normalize: PathRule, x: Execution)
    ensures ModifiedPath(normalize, x).Some? ==> forall o :: !Observes(x, o)
  {
  }

  lemma RecordObserves(normalize: PathRule, f: Facts, x: Execution)
    ensures Record(normalize, f, x).observations ==
            if ModifiedPath(normalize, x).Some? || ObservedCommand(x, f.event + 1).None? then f.observations
            else f.observations + [ObservedCommand(x, f.event + 1).value]
  {
  }

  /** Over every run, the verification kept is the newest accepted one, with the
      number of its own event, if no tracked modification came after it; otherwise
      none is kept, and every accepted one was followed by a tracked modification. */
  lemma {:induction false} LatestIsNewestFresh(normalize: PathRule, log: seq<Execution>)
    ensures match FactsOf(normalize, log).latest
            case Some(o) =>
              && 1 <= o.event <= |log|
              && Observes(log[o.event - 1], o) && o.accepted
              && NewestFreshAt(normalize, log, o.event - 1)
            case None => forall i: nat | i < |log| :: !FreshAt(normalize, log, i)
  {
    hide ObservedCommand, ModifiedPath, Observes, AcceptedVerification, TrackedModification;
    if log != [] {
      var init, x := log[..|log| - 1], log[|log| - 1];
      LatestIsNewestFresh(normalize, init);
      EventsCount(normalize, init);
      ModifiedExactly(normalize, x);
      TrackedHasPath(normalize, x);
      NotBoth(normalize, x);
      AcceptedEvent(x, |log|);
      forall i: nat | i < |init| {
        FreshExtends(normalize, log, i);
      }
      if TrackedModification(normalize, x) {
        assert FactsOf(normalize, log).latest == None;
      } else if AcceptedVerification(x) {
        assert FactsOf(normalize, log).latest == ObservedCommand(x, |log|);
        assert FreshAt(normalize, log, |log| - 1);
      } else {
        assert FactsOf(normalize, log).latest == FactsOf(normalize, init).latest;
        if FactsOf(normalize, init).latest.Some? {
          var i := FactsOf(normalize, init).latest.value.event - 1;
          FreshExtends(normalize, log, i);
          forall j | i < j < |log| ensures !AcceptedVerification(log[j]) {
            assert j < |init| ==> log[j] == init[j];
          }
        } else {
          assert !FreshAt(normalize, log, |log| - 1);
        }
      }
    }
  }

  predicate ModifiesAt(normalize: PathRule, log: seq<Execution>, i: nat, path: string) {
    i < |log| && TrackedModification(normalize, log[i]) && normalize(log[i].result.data.path) == Some(path)
  }

  /** A file is recorded as changed exactly when a tracked modification named it, once
      each, with the event of the newest such modification. */
  lemma {:induction false} ChangedExactly(normalize: PathRule, log: seq<Execution>, path: string)
    ensures path in FactsOf(normalize, log).changed <==> exists i: nat :: ModifiesAt(normalize, log, i, path)
    ensures path in FactsOf(normalize, log).changed <==> path in FactsOf(normalize, log).lastModified
    ensures NoDuplicates(FactsOf(normalize, log).changed)
    ensures path in FactsOf(normalize, log).lastModified ==>
              var e := FactsOf(normalize, log).lastModified[path];
              && 1 <= e <= |log| && ModifiesAt(normalize, log, e - 1, path)
              && forall j :: e <= j < |log| ==> !ModifiesAt(normalize, log, j, path)
  {
    hide ModifiedPath, ModifiesAt, NoDuplicates, Record;
    if log == [] {
      NeverModified(normalize, path);
    } else {
      var init, x := log[..|log| - 1], log[|log| - 1];
      ChangedExactly(normalize, init, path);
      EventsCount(normalize, init);
      if ModifiedPath(normalize, x).Some? {
        var p := ModifiedPath(normalize, x).value;
        ChangedExactly(normalize, init, p);
        if p !in FactsOf(normalize, init).changed {
          AppendDistinct(FactsOf(normalize, init).changed, p);
        }
      }
      RecordChanges(normalize, FactsOf(normalize, init), x);
      EverModified(normalize, init, x, log, path);
    }
  }

  lemma RecordChanges(normalize: PathRule, f: Facts, x: Execution)
    ensures var g := Record(normalize, f, x);
            match ModifiedPath(normalize, x)
            case None => g.changed == f.changed && g.lastModified == f.lastModified
            case Some(p) =>
              && g.lastModified == f.lastModified[p := f.event + 1]
              && g.changed == if p in f.lastModified then f.changed else f.changed + [p]
  {
  }

  lemma EverModified(normalize: PathRule, init: seq<Execution>, x: Execution, log: seq<Execution>, path: string)
    requires log == init + [x]
    ensures (exists i: nat :: ModifiesAt(normalize, log, i, path)) <==>
            ModifiedPath(normalize, x) == Some(path) || exists i: nat :: ModifiesAt(normalize, init, i, path)
    ensures forall i: nat | i < |init| :: ModifiesAt(normalize, log, i, path) <==> ModifiesAt(normalize, init, i, path)
    ensures ModifiesAt(normalize, log, |init|, path) <==> ModifiedPath(normalize, x) == Some(path)
  {
    hide ModifiedPath, TrackedModification;
    ModifiedExactly(normalize, x);
    if ModifiedPath(normalize, x) == Some(path) {
      assert ModifiesAt(normalize, log, |init|, path);
    }
    if i: nat :| ModifiesAt(normalize, init, i, path) {
      assert ModifiesAt(normalize, log, i, path);
    }
    if i: nat :| ModifiesAt(normalize, log, i, path) {
      assert i < |init| ==> ModifiesAt(normalize, init, i, path);
    }
  }

  lemma NeverModified(normalize: PathRule, path: string)
    ensures forall i: nat :: !ModifiesAt(normalize, [], i, path)
    ensures NoDuplicates<string>([])
  {
  }

  // ----- the completion gate -----

  datatype Status = CompletedVerified | CompletedUnverified | CompletedNoChanges | Blocked

  datatype FinishRequest = FinishRequest(
    summary: string, changedFiles: seq<string>, verificationCommand: Option<seq<string>>,
    limitations: seq<string>, blockedReason: Option<string>)

  datatype ClaimWarning = ChangedFilesMismatch | VerificationUnconfirmed | VerificationMismatch

  function Decide(blockedReason: Option<string>, f: Facts): Status {
    if blockedReason.Some? then Blocked
    else if f.changed == [] then CompletedNoChanges
    else if f.latest.Some? then CompletedVerified
    else CompletedUnverified
  }

  predicate TracksAt(normalize: PathRule, log: seq<Execution>, i: nat) {
    i < |log| && TrackedModification(normalize, log[i])
  }

  /** The tracker saw a file change. */
  ghost predicate ChangeTracked(normalize: PathRule, log: seq<Execution>) {
    exists i: nat :: TracksAt(normalize, log, i)
  }

  /** An accepted verification comes after every tracked change. */
  ghost predicate VerificationStands(normalize: PathRule, log: seq<Execution>) {
    exists i: nat | i < |log| :: FreshAt(normalize, log, i)
  }

  lemma ChangedAtAll(normalize: PathRule, log: seq<Execution>)
    ensures FactsOf(normalize, log).changed != [] <==> ChangeTracked(normalize, log)
  {
    hide FactsOf, ModifiedPath;
    var changed := FactsOf(normalize, log).changed;
    if changed != [] {
      ChangedExactly(normalize, log, changed[0]);
      var i: nat :| ModifiesAt(normalize, log, i, changed[0]);
      assert TracksAt(normalize, log, i);
    }
    if i: nat :| TracksAt(normalize, log, i) {
      var path := normalize(log[i].result.data.path).value;
      assert ModifiesAt(normalize, log, i, path);
      ChangedExactly(normalize, log, path);
    }
  }

  lemma KeptAtAll(normalize: PathRule, log: seq<Execution>)
    ensures FactsOf(normalize, log).latest.Some? <==> VerificationStands(normalize, log)
  {
    hide FactsOf, FreshAt, ObservedCommand;
    LatestIsNewestFresh(normalize, log);
  }

  /** A named blocker decides `Blocked`. Without one, a run with no tracked change
      completes without changes, and one with some completes verified exactly when an
      accepted verification stands after every tracked change. */
  lemma StatusExactly(normalize: PathRule, log: seq<Execution>, blockedReason: Option<string>)
    ensures var status := Decide(blockedReason, FactsOf(normalize, log));
            var tracked, stands := ChangeTracked(normalize, log), VerificationStands(normalize, log);
            && (status == Blocked <==> blockedReason.Some?)
            && (status == CompletedNoChanges <==> blockedReason.None? && !tracked)
            && (status == CompletedVerified <==> blockedReason.None? && tracked && stands)
            && (status == CompletedUnverified <==> blockedReason.None? && tracked && !stands)
  {
    hide FactsOf, ChangeTracked, VerificationStands;
    ChangedAtAll(normalize, log);
    KeptAtAll(normalize, log);
  }

  /** A run whose only verification after its change failed, timed out, or was no test,
      build or static check is not reported as verified. */
  lemma FailedTestsVerifyNothing(normalize: PathRule, path: string, result: ToolResult)
    requires normalize(path).Some? && result.data.CommandData?
    requires !result.ok || result.data.exitCode != Some(0) || result.data.timedOut ||
             result.data.kind !in {"test", "build", "static_check"}
    ensures var create := Ran("create_file", ToolResult(true, "", PathData(path), ""));
            Decide(None, FactsOf(normalize, [create, Ran("run_command", result), FinishAsked])) == CompletedUnverified
  {
    hide FactsOf;
    var log := [Ran("create_file", ToolResult(true, "", PathData(path), "")), Ran("run_command", result), FinishAsked];
    assert TracksAt(normalize, log, 0);
    assert forall i: nat | i < |log| :: !AcceptedVerification(log[i]);
    StatusExactly(normalize, log, None);
  }

  // ----- what the tracker does not see -----

  /** The writing tools the tracker has no rule for. */
  const UNTRACKED_TOOLS: set<string> := {"patch_file", "delete_path", "move_path", "make_directory"}

  /** A successful write the tracker passes over: by the name of the tool, or because
      the result of a tracked tool names no path that is recorded. */
  predicate UntrackedWrite(normalize: PathRule, x: Execution) {
    && x.Ran? && x.result.ok
    && (|| x.tool in UNTRACKED_TOOLS
        || (x.tool in MODIFICATION_TOOLS && (x.result.data.PathData? ==> normalize(x.result.data.path).None?)))
  }

  lemma WriteIsTrackedOrNot(normalize: PathRule, x: Execution)
    ensures WritesWorkspace(x) <==> TrackedModification(normalize, x) || UntrackedWrite(normalize, x)
    ensures !(TrackedModification(normalize, x) && UntrackedWrite(normalize, x))
  {
  }

  /** A standing verification is newer than every write to the workspace exactly when
      no call of one of the four untracked tools, and no tracked call whose path is
      not recorded, followed it. */
  lemma FreshForEveryWriteExactly(normalize: PathRule, log: seq<Execution>)
    requires FactsOf(normalize, log).latest.Some?
    ensures var i := FactsOf(normalize, log).latest.value.event;
            (forall j :: i <= j < |log| ==> !WritesWorkspace(log[j])) <==>
            (forall j :: i <= j < |log| ==> !UntrackedWrite(normalize, log[j]))
  {
    hide FactsOf, WritesWorkspace, TrackedModification, UntrackedWrite, AcceptedVerification, ObservedCommand;
    LatestIsNewestFresh(normalize, log);
    var i := FactsOf(normalize, log).latest.value.event;
    forall j | i <= j < |log|
      ensures !TrackedModification(normalize, log[j])
      ensures WritesWorkspace(log[j]) <==> UntrackedWrite(normalize, log[j])
    {
      assert FreshAt(normalize, log, i - 1);
      WriteIsTrackedOrNot(normalize, log[j]);
    }
  }

  /** Tests pass, then patch_file rewrites a file: the run still counts as verified. */
  lemma PatchKeepsVerification(normalize: PathRule, path: string, argv: seq<string>)
    requires normalize(path).Some? && argv != []
    ensures var create := Ran("create_file", ToolResult(true, "", PathData(path), ""));
            var test := Ran("run_command", ToolResult(true, "", CommandData(argv, ".", Some(0), false, "test"), ""));
            var patch := Ran("patch_file", ToolResult(true, "", PathData(path), ""));
            WritesWorkspace(patch) &&
            Decide(None, FactsOf(normalize, [create, test, patch])) == CompletedVerified
  {
    var create := Ran("create_file", ToolResult(true, "", PathData(path), ""));
    var test := Ran("run_command", ToolResult(true, "", CommandData(argv, ".", Some(0), false, "test"), ""));
    var patch := Ran("patch_file", ToolResult(true, "", PathData(path), ""));
    var log := [create, test, patch];
    assert TracksAt(normalize, log, 0);
    assert FreshAt(normalize, log, 1);
    StatusExactly(normalize, log, None);
  }

  // ----- the mutable run state -----

  const MAX_ERROR_CODES: nat := 16

  datatype TerminationReason =
    | FinishTask
    | ModelStopped
    | MaxSteps
    | MaxTime
    | MaxConsecutiveFailures
    | NoProgress
    | Interrupted
    | ApiError
    | ContextBudgetExceeded
    | InternalError

  function WithErrorCode(codes: seq<string>, code: string): seq<string> {
    var all := codes + [code];
    all[Max(0, |all| - MAX_ERROR_CODES)..]
  }

  /** The newest sixteen codes are kept. */
  lemma NewestCodesKept(codes: seq<string>, code: string)
    requires |codes| <= 16
    ensures WithErrorCode(codes, code) == if |codes| < 16 then codes + [code] else codes[1..] + [code]
  {
  }

  /** The facts one run owns, updated in place. */
  class RunState {
    var startedAt: real
    var elapsed: real
    var eventSequence: nat
    var lastModified: map<string, nat>
    var changed: seq<string>
    var observations: seq<CommandObservation>
    var latest: Option<CommandObservation>
    var modelCalls: nat
    var toolCalls: nat
    var toolErrors: nat
    var apiAttempts: nat
    var apiRetries: nat
    var compactions: nat
    var compressedGroups: nat
    var protocolRepairs: nat
    var consecutiveFailures: nat
    var noProgress: nat
    var errorCodes: seq<string>
    var termination: Option<TerminationReason>
    var completion: Option<Status>
    var blockedReason: Option<string>

    constructor (startedAt: real)
      ensures Evidence() == NO_FACTS && errorCodes == [] && this.startedAt == startedAt
      ensures modelCalls == toolCalls == toolErrors == apiAttempts == apiRetries == 0
      ensures protocolRepairs == consecutiveFailures == noProgress == 0
      ensures termination == None && completion == None && blockedReason == None
    {
      this.startedAt, elapsed := startedAt, 0.0;
      eventSequence, lastModified, changed, observations, latest := 0, map[], [], [], None;
      modelCalls, toolCalls, toolErrors, apiAttempts, apiRetries := 0, 0, 0, 0, 0;
      compactions, compressedGroups, protocolRepairs, consecutiveFailures, noProgress := 0, 0, 0, 0, 0;
      errorCodes, termination, completion, blockedReason := [], None, None, None;
    }

    function Evidence(): Facts
      reads this`eventSequence, this`lastModified, this`changed, this`observations, this`latest
    {
      Facts(eventSequence, lastModified, changed, observations, latest)
    }

    method NextEvent() returns (event: nat)
      modifies this`eventSequence
      ensures event == eventSequence == old(eventSequence) + 1
    {
      eventSequence := eventSequence + 1;
      event := eventSequence;
    }

    method RecordChangedFile(path: string, event: nat)
      modifies this`changed, this`lastModified, this`latest
      ensures lastModified == old(lastModified)[path := event] && latest == None
      ensures changed == if path in old(lastModified) then old(changed) else old(changed) + [path]
    {
      if path !in lastModified {
        changed := changed + [path];
      }
      lastModified := lastModified[path := event];
      latest := None;
    }

    method RecordCommand(o: CommandObservation)
      modifies this`observations, this`latest
      ensures observations == old(observations) + [o]
      ensures latest == if o.accepted then Some(o) else old(latest)
    {
      observations := observations + [o];
      if o.accepted {
        latest := Some(o);
      }
    }

    /** Keep the newest sixteen error codes. */
    method RecordErrorCode(code: string)
      modifies this`errorCodes
      ensures errorCodes == WithErrorCode(old(errorCodes), code)
    {
      errorCodes := errorCodes + [code];
      errorCodes := errorCodes[Max(0, |errorCodes| - MAX_ERROR_CODES)..];
    }
  }

  class VerificationTracker {
    const state: RunState
    const normalize: PathRule

    constructor (state: RunState, normalize: PathRule)
      ensures this.state == state && this.normalize == normalize
    {
      this.state, this.normalize := state, normalize;
    }

    /** Record one executed tool result: exactly one step of `Record`. */
    method RecordExecution(tool: string, result: ToolResult) returns (event: nat)
      modifies state`eventSequence, state`lastModified, state`changed, state`observations, state`latest
      ensures state.Evidence() == Record(normalize, old(state.Evidence()), Ran(tool, result))
      ensures event == state.eventSequence
    {
      event := state.NextEvent();
      if tool in MODIFICATION_TOOLS {
        if result.ok && result.data.PathData? {
          var path := normalize(result.data.path);
          if path.Some? {
            state.RecordChangedFile(path.value, event);
          }
        }
      } else if tool == "run_command" {
        if result.data.CommandData? && result.data.argv != [] {
          var d := result.data;
          var accepted := result.ok && !d.timedOut && d.exitCode == Some(0) && d.kind in VERIFICATION_KINDS;
          state.RecordCommand(CommandObservation(d.argv, d.cwd, d.exitCode, d.timedOut, d.kind, event, accepted));
        }
      }
    }

    method RecordFinish()
      modifies state`eventSequence
      ensures state.Evidence() == Record(normalize, old(state.Evidence()), FinishAsked)
    {
      var _ := state.NextEvent();
    }
  }

  datatype FinishOutcome = FinishOutcome(request: FinishRequest, status: Status, warnings: seq<ClaimWarning>)

  /** Local evidence and the blocker flag decide, whatever files or verification the
      request claims; a claim that disagrees is only warned about. */
  method BuildFinishOutcome(request: FinishRequest, state: RunState) returns (outcome: FinishOutcome)
    ensures outcome.request == request && outcome.status == Decide(request.blockedReason, state.Evidence())
    ensures ChangedFilesMismatch in outcome.warnings <==> Elements(request.changedFiles) != Elements(state.changed)
    ensures VerificationUnconfirmed in outcome.warnings <==>
            request.verificationCommand.Some? && state.latest.None?
    ensures VerificationMismatch in outcome.warnings <==>
            request.verificationCommand.Some? && state.latest.Some? &&
            request.verificationCommand.value != state.latest.value.argv
  {
    var status :=
      if request.blockedReason.Some? then Blocked
      else if state.changed == [] then CompletedNoChanges
      else if state.latest.Some? then CompletedVerified
      else CompletedUnverified;
    var warnings: seq<ClaimWarning> := [];
    if Elements(request.changedFiles) != Elements(state.changed) {
      warnings := warnings + [ChangedFilesMismatch];
    }
    if request.verificationCommand.Some? {
      if state.latest.None? {
        warnings := warnings + [VerificationUnconfirmed];
      } else if request.verificationCommand.value != state.latest.value.argv {
        warnings := warnings + [VerificationMismatch];
      }
    }
    outcome := FinishOutcome(request, status, warnings);
  }
}
