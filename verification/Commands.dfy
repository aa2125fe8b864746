/** Which commands run: the built-in decision, its extension by a project policy, and
    the checks on arguments. */
module Commands {
  import opened Prelude

  datatype Decision = Allow | Confirm | Deny

  datatype Refusal = InvalidArguments | Blocked | NotFound

  /** A missing allowance is told apart from every other refusal. */
  datatype PolicyError = Refused(why: Refusal) | NotAllowlisted

  datatype PolicyEntry = PolicyEntry(
    executable: string, subcommands: seq<string>, options: seq<string>, decision: Decision, kind: string)

  datatype Policy = Policy(entries: seq<PolicyEntry>)

  /** What a validator accepted: the kind of command, its decision and its arguments. */
  datatype Accepted = Accepted(kind: string, decision: Decision, executionTail: seq<string>, displayTail: seq<string>)

  datatype Source = Builtin | FromPolicy

  datatype Prepared = Prepared(executable: string, name: string, accepted: Accepted, source: Source)

  /** Facts about the machine and the workspace that no policy changes. */
  datatype Rules = Rules(
    casefold: string -> string,
    /** Checks on argv, directory, time limit and secrets that come first. */
    preflight: seq<string> -> Option<Refusal>,
    scriptSuffix: string -> bool,
    explicitCompiler: string -> bool,
    /** The executable's folded name; an explicit path must resolve in the workspace. */
    nameOf: string -> Result<string, Refusal>,
    isPython: string -> bool,
    python: string,
    withoutExe: string -> string,
    gxx: string -> Result<string, Refusal>,
    locate: string -> Result<string, Refusal>,
    /** Validators of the five built-in commands. */
    builtin: (string, seq<string>) -> Result<Accepted, Refusal>,
    /** Whether a path argument stays inside the workspace, and what it resolves to. */
    resolve: string -> Option<string>,
    hasDrive: string -> bool,
    root: string)

  const BLOCKED_EXECUTABLES: set<string> := {
    "apt", "apt-get", "bash", "brew", "cargo", "chgrp", "chmod", "chown", "cmd", "curl", "del", "dnf", "doas",
    "erase", "fish", "ftp", "gem", "kill", "killall", "npm", "pacman", "pip", "pip3", "powershell", "pwsh", "rd",
    "rm", "rmdir", "runas", "scp", "sh", "ssh", "sudo", "taskkill", "wget", "winget", "wsl", "yum", "zsh"
  }
  const GXX_NAMES: set<string> := {"g++", "g++.exe"}
  const KNOWN_EXECUTABLES: set<string> := {"git", "pytest", "ruff"}
  const BUILTIN_COMMANDS: set<string> := {"python", "pytest", "ruff", "git", "g++"}

  // ----- the policy -----

  function EntryIn(r: Rules, entries: seq<PolicyEntry>, name: string): Option<PolicyEntry> {
    if entries == [] then None
    else if entries[0].executable == r.casefold(name) then Some(entries[0])
    else EntryIn(r, entries[1..], name)
  }

  function EntryFor(r: Rules, policy: Option<Policy>, name: string): Option<PolicyEntry> {
    if policy == None then None else EntryIn(r, policy.value.entries, name)
  }

  // ----- arguments -----

  function OptionName(argument: string): string {
    if argument == "" || argument[0] == '=' then "" else [argument[0]] + OptionName(argument[1..])
  }

  /** The part of a path argument before a test selector. */
  function PathPart(value: string): string {
    if value == "" || (|value| >= 2 && value[0] == ':' && value[1] == ':') then "" else [value[0]] + PathPart(value[1..])
  }

  predicate StartsWith(s: string, c: char) {
    s != "" && s[0] == c
  }

  predicate PathOk(r: Rules, value: string) {
    value != "" && value != "-" && r.resolve(PathPart(value)).Some?
  }

  predicate LooksPathLike(r: Rules, value: string) {
    '/' in value || '\\' in value || StartsWith(value, '.') || StartsWith(value, '@') || r.hasDrive(value)
  }

  predicate SeparatorBefore(arguments: seq<string>, i: nat)
    requires i <= |arguments|
  {
    "--" in arguments[..i]
  }

  predicate Declared(r: Rules, declared: seq<string>, item: string) {
    exists k :: 0 <= k < |declared| && r.casefold(declared[k]) == r.casefold(item)
  }

  /** What one argument of a policy command must satisfy. */
  predicate EntryArgument(r: Rules, entry: PolicyEntry, rest: seq<string>, i: nat)
    requires i < |rest|
  {
    if rest[i] == "--" then true
    else if !SeparatorBefore(rest, i) && StartsWith(rest[i], '-') then Declared(r, entry.options, OptionName(rest[i]))
    else SeparatorBefore(rest, i) || LooksPathLike(r, rest[i]) ==> PathOk(r, rest[i])
  }

  /** Exactly what an entry permits: a declared subcommand, declared options, and paths
      inside the workspace. */
  predicate EntryAccepts(r: Rules, entry: PolicyEntry, arguments: seq<string>) {
    && (entry.subcommands != [] ==> arguments != [] && Declared(r, entry.subcommands, arguments[0]))
    && AllDeclared(r, entry, if entry.subcommands != [] then arguments[1..] else arguments)
  }

  predicate AllDeclared(r: Rules, entry: PolicyEntry, rest: seq<string>) {
    forall i :: 0 <= i < |rest| ==> EntryArgument(r, entry, rest, i)
  }

  method ValidatePolicyEntry(r: Rules, entry: PolicyEntry, arguments: seq<string>) returns (error: Option<Refusal>)
    ensures error in {None, Some(Blocked)}
    ensures error == None <==> EntryAccepts(r, entry, arguments)
  {
    hide LooksPathLike, PathOk, OptionName, Declared;
    var rest := arguments;
    if entry.subcommands != [] {
      if arguments == [] || !Declared(r, entry.subcommands, arguments[0]) {
        return Some(Blocked);
      }
      rest := arguments[1..];
    }
    var afterSeparator := false;
    for i := 0 to |rest|
      invariant afterSeparator <==> SeparatorBefore(rest, i)
      invariant forall j :: 0 <= j < i ==> EntryArgument(r, entry, rest, j)
    {
      TakeNext(rest, i);
      var argument := rest[i];
      if argument == "--" {
        afterSeparator := true;
      } else if !afterSeparator && StartsWith(argument, '-') {
        if !Declared(r, entry.options, OptionName(argument)) {
          assert !AllDeclared(r, entry, rest) by {
            assert !EntryArgument(r, entry, rest, i);
          }
          return Some(Blocked);
        }
      } else if afterSeparator || LooksPathLike(r, argument) {
        if !PathOk(r, argument) {
          assert !AllDeclared(r, entry, rest) by {
            assert !EntryArgument(r, entry, rest, i);
          }
          return Some(Blocked);
        }
      }
    }
    return None;
  }

  // ----- git -----

  const GIT_READ: set<string> := {"diff", "log", "ls-files", "rev-parse", "show", "status"}
  const GIT_WRITE: set<string> := {
    "add", "am", "branch", "checkout", "cherry-pick", "clean", "clone", "commit", "config", "fetch", "gc", "init",
    "merge", "mv", "pull", "push", "rebase", "remote", "reset", "restore", "revert", "rm", "stash", "submodule",
    "switch", "tag", "worktree"
  }
  const GIT_NETWORK_OR_CONFIG: set<string> := {"clone", "config", "fetch", "pull", "push", "remote"}
  const GIT_CONFIRM: set<string> := GIT_WRITE - GIT_NETWORK_OR_CONFIG
  const GIT_BLOCKED_OPTIONS: set<string> := {
    "--config-env", "--exec-path", "--ext-diff", "--git-dir", "--no-index", "--output", "--pathspec-from-file",
    "--textconv", "--work-tree"
  }

  predicate GitScope(argument: string) {
    argument == "-c" || "-C" <= argument
  }

  /** What one argument after the subcommand must satisfy. */
  predicate GitArgument(r: Rules, rest: seq<string>, i: nat)
    requires i < |rest|
  {
    rest[i] == "--" ||
    (&& !GitScope(rest[i]) && OptionName(rest[i]) !in GIT_BLOCKED_OPTIONS
     && (SeparatorBefore(rest, i) || (!StartsWith(rest[i], '-') && LooksPathLike(r, rest[i])) ==> PathOk(r, rest[i])))
  }

  predicate GitArguments(r: Rules, rest: seq<string>) {
    forall i :: 0 <= i < |rest| ==> GitArgument(r, rest, i)
  }

  /** Reading runs, local writing is confirmed, and network or configuration commands,
      scope and output options and paths outside the workspace are refused. */
  method ValidateGit(r: Rules, arguments: seq<string>) returns (result: Result<Decision, Refusal>)
    ensures result.Ok? <==>
              && arguments != [] && r.casefold(arguments[0]) in GIT_READ + GIT_CONFIRM && GitArguments(r, arguments[1..])
    ensures result.Ok? ==> r.casefold(arguments[0]) !in GIT_NETWORK_OR_CONFIG
    ensures result.Ok? ==> result.value == if r.casefold(arguments[0]) in GIT_WRITE then Confirm else Allow
  {
    hide GitArguments;
    if arguments == [] {
      return Err(InvalidArguments);
    }
    var subcommand := r.casefold(arguments[0]);
    var decision := Allow;
    if subcommand in GIT_CONFIRM {
      decision := Confirm;
    } else if subcommand in GIT_WRITE {
      return Err(Blocked);
    } else if subcommand !in GIT_READ {
      return Err(Blocked);
    }
    var ok := CheckGitArguments(r, arguments[1..]);
    return if ok then Ok(decision) else Err(Blocked);
  }

  method CheckGitArguments(r: Rules, rest: seq<string>) returns (ok: bool)
    ensures ok <==> GitArguments(r, rest)
  {
    hide OptionName, PathOk, LooksPathLike, GitScope;
    var afterSeparator := false;
    for i := 0 to |rest|
      invariant afterSeparator <==> SeparatorBefore(rest, i)
      invariant forall j :: 0 <= j < i ==> GitArgument(r, rest, j)
    {
      TakeNext(rest, i);
      var argument := rest[i];
      if argument == "--" {
        afterSeparator := true;
        continue;
      }
      if GitScope(argument) || OptionName(argument) in GIT_BLOCKED_OPTIONS {
        assert !GitArgument(r, rest, i);
        return false;
      }
      if afterSeparator || (!StartsWith(argument, '-') && LooksPathLike(r, argument)) {
        if !PathOk(r, argument) {
          assert !GitArgument(r, rest, i);
          return false;
        }
      }
    }
    return true;
  }

  // ----- the decision -----

  function ResolveExecutable(r: Rules, requested: string, policy: Option<Policy>): Result<(string, string), PolicyError> {
    if r.scriptSuffix(requested) || r.explicitCompiler(requested) then Err(Refused(Blocked))
    else
      match r.nameOf(requested)
      case Err(e) => Err(Refused(e))
      case Ok(executableName) =>
        var name := r.withoutExe(executableName);
        if r.isPython(executableName) then Ok((r.python, "python"))
        else if name in BLOCKED_EXECUTABLES then Err(Refused(Blocked))
        else if executableName in GXX_NAMES then
          match r.gxx(requested)
          case Err(e) => Err(Refused(e))
          case Ok(path) => Ok((path, "g++"))
        else if name !in KNOWN_EXECUTABLES && EntryFor(r, policy, name) == None then Err(NotAllowlisted)
        else
          match r.locate(requested)
          case Err(e) => Err(Refused(e))
          case Ok(path) => Ok((path, name))
  }

  function Prepare(r: Rules, argv: seq<string>, policy: Option<Policy>): Result<Prepared, PolicyError> {
    if argv == [] then Err(Refused(InvalidArguments))
    else
      match r.preflight(argv)
      case Some(e) => Err(Refused(e))
      case None =>
        match ResolveExecutable(r, argv[0], policy)
        case Err(e) => Err(e)
        case Ok((executable, name)) =>
          if name in BUILTIN_COMMANDS then
            match r.builtin(name, argv[1..])
            case Err(e) => Err(Refused(e))
            case Ok(a) => Ok(Prepared(executable, name, a, Builtin))
          else
            match EntryFor(r, policy, name)
            case None => Err(NotAllowlisted)
            case Some(entry) =>
              if EntryAccepts(r, entry, argv[1..])
              then Ok(Prepared(executable, name, Accepted(entry.kind, entry.decision, argv[1..], argv[1..]), FromPolicy))
              else Err(Refused(Blocked))
  }

  // ----- what the decision means -----

  lemma {:induction false} OptionNameExactly(argument: string)
    ensures var name := OptionName(argument);
            name <= argument && '=' !in name && (name == argument || argument[|name|] == '=')
  {
    if argument != "" && argument[0] != '=' {
      OptionNameExactly(argument[1..]);
    }
  }

  predicate SelectorAt(value: string, i: nat) {
    i + 1 < |value| && value[i] == ':' && value[i + 1] == ':'
  }

  lemma {:induction false} PathPartExactly(value: string)
    ensures var path := PathPart(value);
            && path <= value && (path == value || SelectorAt(value, |path|))
            && forall i: nat :: i < |path| ==> !SelectorAt(value, i)
  {
    if value != "" && !SelectorAt(value, 0) {
      PathPartExactly(value[1..]);
      forall i: nat | i < |PathPart(value)| ensures !SelectorAt(value, i) {
        assert i > 0 ==> !SelectorAt(value[1..], i - 1);
      }
    }
  }

  /** An argument that names a path inside the workspace. */
  predicate StaysInside(r: Rules, value: string) {
    value !in {"", "-"} && r.resolve(PathPart(value)) != None
  }

  predicate OneOf(r: Rules, declared: seq<string>, item: string) {
    exists d | d in declared :: r.casefold(d) == r.casefold(item)
  }

  /** Up to a separator only declared options, and nothing that looks like a path, or comes
      after the separator, but paths inside the workspace. */
  predicate ArgumentPermitted(r: Rules, entry: PolicyEntry, rest: seq<string>, i: nat)
    requires i < |rest|
  {
    var text := rest[i];
    var pathLike := '/' in text || '\\' in text || "." <= text || "@" <= text || r.hasDrive(text);
    || text == "--"
    || (if "--" !in rest[..i] && "-" <= text then OneOf(r, entry.options, OptionName(text))
        else "--" in rest[..i] || pathLike ==> StaysInside(r, text))
  }

  /** What a policy entry permits: a declared subcommand first, if it declares any, and
      then only permitted arguments. */
  predicate Permits(r: Rules, entry: PolicyEntry, arguments: seq<string>) {
    var first := if entry.subcommands == [] then 0 else 1;
    && first <= |arguments|
    && (first == 1 ==> OneOf(r, entry.subcommands, arguments[0]))
    && AllPermitted(r, entry, arguments[first..])
  }

  predicate AllPermitted(r: Rules, entry: PolicyEntry, rest: seq<string>) {
    forall i :: 0 <= i < |rest| ==> ArgumentPermitted(r, entry, rest, i)
  }

  lemma AllExactly(r: Rules, entry: PolicyEntry, rest: seq<string>)
    ensures AllDeclared(r, entry, rest) <==> AllPermitted(r, entry, rest)
  {
    hide EntryArgument, ArgumentPermitted;
    forall i | 0 <= i < |rest|
      ensures EntryArgument(r, entry, rest, i) <==> ArgumentPermitted(r, entry, rest, i)
    {
      ArgumentExactly(r, entry, rest, i);
    }
  }

  lemma DeclaredExactly(r: Rules, declared: seq<string>, item: string)
    ensures Declared(r, declared, item) <==> OneOf(r, declared, item)
  {
  }

  lemma ArgumentExactly(r: Rules, entry: PolicyEntry, rest: seq<string>, i: nat)
    requires i < |rest|
    ensures EntryArgument(r, entry, rest, i) <==> ArgumentPermitted(r, entry, rest, i)
  {
    hide Declared, OneOf, OptionName;
    DeclaredExactly(r, entry.options, OptionName(rest[i]));
  }

  lemma PermitsExactly(r: Rules, entry: PolicyEntry, arguments: seq<string>)
    ensures EntryAccepts(r, entry, arguments) <==> Permits(r, entry, arguments)
  {
    hide Declared, OneOf, AllDeclared, AllPermitted;
    if arguments != [] {
      DeclaredExactly(r, entry.subcommands, arguments[0]);
    }
    var first := if entry.subcommands == [] then 0 else 1;
    assert arguments[0..] == arguments;
    if first <= |arguments| {
      AllExactly(r, entry, arguments[first..]);
    }
  }

  /** No git argument but a separator sets a scope or names a blocked option, wherever it
      stands, and every argument that comes after a separator, or looks like a path and
      is no option, is a path inside the workspace. */
  predicate GitPermits(r: Rules, rest: seq<string>) {
    && (forall a | a in rest && a != "--" :: a != "-c" && !("-C" <= a))
    && (forall a | a in rest && a != "--" :: OptionName(a) !in GIT_BLOCKED_OPTIONS)
    && (forall i | 0 <= i < |rest| && rest[i] != "--" && "--" in rest[..i] :: StaysInside(r, rest[i]))
    && (forall a | a in rest && a != "--" && !("-" <= a) && LooksPathLike(r, a) :: StaysInside(r, a))
  }

  lemma GitExactly(r: Rules, rest: seq<string>)
    ensures GitArguments(r, rest) <==> GitPermits(r, rest)
  {
    hide OptionName, LooksPathLike;
    if GitArguments(r, rest) {
      forall a | a in rest && a != "--"
        ensures a != "-c" && !("-C" <= a) && OptionName(a) !in GIT_BLOCKED_OPTIONS
        ensures !("-" <= a) && LooksPathLike(r, a) ==> StaysInside(r, a)
      {
        var i :| 0 <= i < |rest| && rest[i] == a;
        assert GitArgument(r, rest, i);
      }
      forall i | 0 <= i < |rest| && rest[i] != "--" && "--" in rest[..i] ensures StaysInside(r, rest[i]) {
        assert GitArgument(r, rest, i);
      }
    }
    if GitPermits(r, rest) {
      forall i | 0 <= i < |rest| ensures GitArgument(r, rest, i) {
        assert rest[i] in rest;
      }
    }
  }

  /** The policy's entry for a name is the first one with that name. */
  predicate ListedAt(r: Rules, policy: Option<Policy>, name: string, k: nat) {
    && policy.Some? && k < |policy.value.entries|
    && policy.value.entries[k].executable == r.casefold(name)
    && forall j | 0 <= j < k :: policy.value.entries[j].executable != r.casefold(name)
  }

  ghost predicate Listed(r: Rules, policy: Option<Policy>, name: string) {
    exists k: nat :: ListedAt(r, policy, name, k)
  }

  lemma {:induction false} EntryInExactly(r: Rules, entries: seq<PolicyEntry>, name: string)
    ensures match EntryIn(r, entries, name)
            case Some(entry) => exists k: nat :: ListedAt(r, Some(Policy(entries)), name, k) && entry == entries[k]
            case None => !Listed(r, Some(Policy(entries)), name)
  {
    if entries != [] && entries[0].executable != r.casefold(name) {
      EntryInExactly(r, entries[1..], name);
      if EntryIn(r, entries, name).Some? {
        var k: nat :| ListedAt(r, Some(Policy(entries[1..])), name, k) && EntryIn(r, entries, name).value == entries[1..][k];
        assert ListedAt(r, Some(Policy(entries)), name, k + 1);
      } else if k: nat :| ListedAt(r, Some(Policy(entries)), name, k) {
        assert ListedAt(r, Some(Policy(entries[1..])), name, k - 1);
      }
    } else if entries != [] {
      assert ListedAt(r, Some(Policy(entries)), name, 0);
    }
  }

  lemma EntryExactly(r: Rules, policy: Option<Policy>, name: string, k: nat)
    ensures ListedAt(r, policy, name, k) ==> EntryFor(r, policy, name) == Some(policy.value.entries[k])
    ensures EntryFor(r, policy, name).Some? <==> Listed(r, policy, name)
  {
    if policy.Some? {
      EntryInExactly(r, policy.value.entries, name);
      if ListedAt(r, policy, name, k) && EntryFor(r, policy, name).Some? {
        var j: nat :| ListedAt(r, policy, name, j) && EntryFor(r, policy, name).value == policy.value.entries[j];
        assert j == k;
      }
    }
  }

  /** The first checks pass and the executable has a name; nothing is decided about it yet. */
  predicate Named(r: Rules, argv: seq<string>) {
    && argv != [] && r.preflight(argv) == None
    && !r.scriptSuffix(argv[0]) && !r.explicitCompiler(argv[0]) && r.nameOf(argv[0]).Ok?
  }

  /** Which program a named executable stands for: Python whatever it is called, the
      compiler, or, unless it is blocked, a program of its own name that is known or listed. */
  ghost predicate StandsFor(r: Rules, requested: string, policy: Option<Policy>, path: string, name: string)
    requires r.nameOf(requested).Ok?
  {
    var given := r.nameOf(requested).value;
    var plain := r.withoutExe(given);
    if r.isPython(given) then path == r.python && name == "python"
    else
      && plain !in BLOCKED_EXECUTABLES
      && if given == "g++" || given == "g++.exe" then r.gxx(requested) == Ok(path) && name == "g++"
         else
           && name == plain && r.locate(requested) == Ok(path)
           && (name in {"git", "pytest", "ruff"} || Listed(r, policy, name))
  }

  lemma StandsForExactly(r: Rules, argv: seq<string>, policy: Option<Policy>, path: string, name: string)
    requires Named(r, argv)
    ensures ResolveExecutable(r, argv[0], policy) == Ok((path, name)) <==> StandsFor(r, argv[0], policy, path, name)
  {
    hide Listed, EntryFor;
    var plain := r.withoutExe(r.nameOf(argv[0]).value);
    EntryExactly(r, policy, plain, 0);
  }

  /** The entry listed at `k` permits the arguments, and `p` is what it makes of them. */
  predicate GrantedAt(r: Rules, policy: Option<Policy>, tail: seq<string>, p: Prepared, k: nat) {
    && ListedAt(r, policy, p.name, k)
    && var entry := policy.value.entries[k];
       Permits(r, entry, tail) && p.accepted == Accepted(entry.kind, entry.decision, tail, tail)
  }

  /** A command is accepted on the word of a policy exactly when its executable stands for
      a program that is no built-in command and the policy's entry for that program permits
      the arguments; then it has the kind and the decision of the entry, and the arguments
      as they were given. */
  lemma PolicyAcceptsExactly(r: Rules, argv: seq<string>, policy: Option<Policy>, p: Prepared)
    ensures Prepare(r, argv, policy) == Ok(p) && p.source == FromPolicy <==>
              && Named(r, argv) && StandsFor(r, argv[0], policy, p.executable, p.name)
              && p.name !in {"python", "pytest", "ruff", "git", "g++"}
              && p.source == FromPolicy && exists k: nat :: GrantedAt(r, policy, argv[1..], p, k)
  {
    hide EntryAccepts, Permits, EntryFor, ResolveExecutable, StandsFor, ListedAt;
    if Named(r, argv) {
      StandsForExactly(r, argv, policy, p.executable, p.name);
      EntryExactly(r, policy, p.name, 0);
      if k: nat :| ListedAt(r, policy, p.name, k) {
        var entry := EntryAt(r, policy, p.name, k);
        EntryExactly(r, policy, p.name, k);
        PermitsExactly(r, entry, argv[1..]);
        assert GrantedAt(r, policy, argv[1..], p, k) <==>
               Permits(r, entry, argv[1..]) && p.accepted == Accepted(entry.kind, entry.decision, argv[1..], argv[1..]);
        OnlyListedOnce(r, policy, argv[1..], p, k);
      }
    } else {
      UnnamedRefused(r, argv, policy);
    }
  }

  lemma OnlyListedOnce(r: Rules, policy: Option<Policy>, tail: seq<string>, p: Prepared, k: nat)
    requires ListedAt(r, policy, p.name, k)
    ensures forall j: nat :: GrantedAt(r, policy, tail, p, j) ==> j == k
  {
    hide Permits;
  }

  function EntryAt(r: Rules, policy: Option<Policy>, name: string, k: nat): PolicyEntry
    requires ListedAt(r, policy, name, k)
  {
    policy.value.entries[k]
  }

  lemma UnnamedRefused(r: Rules, argv: seq<string>, policy: Option<Policy>)
    requires !Named(r, argv)
    ensures Prepare(r, argv, policy).Err? && Prepare(r, argv, policy) != Err(NotAllowlisted)
  {
    hide EntryAccepts, EntryFor;
  }

  /** A command is accepted by the built-in rules exactly when its executable stands for
      one of the five built-in commands and that command's validator accepts the arguments. */
  lemma BuiltinAcceptsExactly(r: Rules, argv: seq<string>, policy: Option<Policy>, p: Prepared)
    ensures Prepare(r, argv, policy) == Ok(p) && p.source == Builtin <==>
              && Named(r, argv) && StandsFor(r, argv[0], policy, p.executable, p.name)
              && p.name in {"python", "pytest", "ruff", "git", "g++"}
              && p.source == Builtin && r.builtin(p.name, argv[1..]) == Ok(p.accepted)
  {
    hide EntryAccepts, EntryFor, ResolveExecutable, StandsFor;
    if Named(r, argv) {
      StandsForExactly(r, argv, policy, p.executable, p.name);
    } else {
      UnnamedRefused(r, argv, policy);
    }
  }

  /** The one refusal a policy could lift: a named executable that is not Python, not
      blocked, not the compiler, not a known program and not listed. */
  lemma NotAllowlistedExactly(r: Rules, argv: seq<string>, policy: Option<Policy>)
    ensures Prepare(r, argv, policy) == Err(NotAllowlisted) <==>
              && Named(r, argv)
              && var given := r.nameOf(argv[0]).value;
                 && !r.isPython(given) && r.withoutExe(given) !in BLOCKED_EXECUTABLES && given !in {"g++", "g++.exe"}
                 && r.withoutExe(given) !in {"git", "pytest", "ruff"} && !Listed(r, policy, r.withoutExe(given))
  {
    hide EntryAccepts, EntryFor, Listed;
    if Named(r, argv) {
      EntryExactly(r, policy, r.withoutExe(r.nameOf(argv[0]).value), 0);
    } else {
      UnnamedRefused(r, argv, policy);
    }
  }

  /** Why a command is refused otherwise: the first check that fails says so, and a command
      past all of them by its own validator or by the policy's entry. */
  lemma RefusalsExactly(r: Rules, argv: seq<string>, policy: Option<Policy>, path: string, name: string, k: nat, e: Refusal)
    ensures argv == [] ==> Prepare(r, argv, policy) == Err(Refused(InvalidArguments))
    ensures argv != [] && r.preflight(argv) == Some(e) ==> Prepare(r, argv, policy) == Err(Refused(e))
    ensures argv != [] && r.preflight(argv) == None && (r.scriptSuffix(argv[0]) || r.explicitCompiler(argv[0])) ==>
              Prepare(r, argv, policy) == Err(Refused(Blocked))
    ensures Unnamed(r, argv, e) ==> Prepare(r, argv, policy) == Err(Refused(e))
    ensures Named(r, argv) && Unlocated(r, argv[0], policy, e) ==> Prepare(r, argv, policy) == Err(Refused(e))
    ensures Named(r, argv) && StandsFor(r, argv[0], policy, path, name) ==>
              && (name in {"python", "pytest", "ruff", "git", "g++"} && r.builtin(name, argv[1..]) == Err(e) ==>
                    Prepare(r, argv, policy) == Err(Refused(e)))
              && (name !in {"python", "pytest", "ruff", "git", "g++"} && ListedAt(r, policy, name, k) &&
                  !Permits(r, EntryAt(r, policy, name, k), argv[1..]) ==>
                    Prepare(r, argv, policy) == Err(Refused(Blocked)))
  {
    hide EntryAccepts, Permits, EntryFor, Listed, ListedAt;
    if Named(r, argv) {
      EntryExactly(r, policy, r.withoutExe(r.nameOf(argv[0]).value), 0);
      StandsForExactly(r, argv, policy, path, name);
      if ListedAt(r, policy, name, k) {
        EntryExactly(r, policy, name, k);
        PermitsExactly(r, EntryAt(r, policy, name, k), argv[1..]);
      }
    }
  }

  predicate Unnamed(r: Rules, argv: seq<string>, e: Refusal) {
    && argv != [] && r.preflight(argv) == None
    && !r.scriptSuffix(argv[0]) && !r.explicitCompiler(argv[0]) && r.nameOf(argv[0]) == Err(e)
  }

  /** The program is allowed but was not found. */
  ghost predicate Unlocated(r: Rules, requested: string, policy: Option<Policy>, e: Refusal)
    requires r.nameOf(requested).Ok?
  {
    var given := r.nameOf(requested).value;
    var plain := r.withoutExe(given);
    && !r.isPython(given) && plain !in BLOCKED_EXECUTABLES
    && if given == "g++" || given == "g++.exe" then r.gxx(requested) == Err(e)
       else (plain in {"git", "pytest", "ruff"} || Listed(r, policy, plain)) && r.locate(requested) == Err(e)
  }


  /** A policy extends the built-in decision and never changes it: everything but a
      missing allowance is decided as it is without a policy, and whatever the policy
      decides, the built-in rules had only found no allowance for. */
  lemma PolicyOnlyExtends(r: Rules, argv: seq<string>, policy: Policy)
    ensures Prepare(r, argv, None) != Err(NotAllowlisted) ==> Prepare(r, argv, Some(policy)) == Prepare(r, argv, None)
    ensures Prepare(r, argv, Some(policy)) == Err(NotAllowlisted) ==> Prepare(r, argv, None) == Err(NotAllowlisted)
    ensures Prepare(r, argv, Some(policy)).Ok? && Prepare(r, argv, Some(policy)).value.source == FromPolicy ==>
              Prepare(r, argv, None) == Err(NotAllowlisted)
  {
    hide EntryAccepts, EntryIn;
  }

  /** No policy unblocks a blocked executable. */
  lemma BlockedStaysBlocked(r: Rules, argv: seq<string>, policy: Option<Policy>)
    requires argv != [] && r.nameOf(argv[0]).Ok? && !r.isPython(r.nameOf(argv[0]).value)
    requires r.withoutExe(r.nameOf(argv[0]).value) in BLOCKED_EXECUTABLES
    ensures Prepare(r, argv, policy).Err?
    ensures r.preflight(argv) == None ==> Prepare(r, argv, policy) == Err(Refused(Blocked))
  {
    hide EntryAccepts, EntryIn;
  }
}
