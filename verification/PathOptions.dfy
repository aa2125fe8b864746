/** Checking that every path among a command's arguments stays inside the workspace. */
module PathOptions {
  import opened Prelude
  import opened Commands

  /** Options that take a path, options that take another value, path options that may not
      name the workspace root, and a check of other options with an inline value. */
  datatype OptionRules = OptionRules(
    path: set<string>, value: set<string>, notRoot: set<string>, special: Option<(string, string) -> bool>)

  predicate HasInline(argument: string) {
    |OptionName(argument)| < |argument|
  }

  lemma {:induction false} OptionNameIsPrefix(argument: string)
    ensures OptionName(argument) <= argument && '=' !in OptionName(argument)
    ensures HasInline(argument) <==> '=' in argument
    ensures HasInline(argument) ==> argument[|OptionName(argument)|] == '='
  {
    if argument != "" && argument[0] != '=' {
      OptionNameIsPrefix(argument[1..]);
      assert argument == [argument[0]] + argument[1..];
    }
  }

  function InlineValue(argument: string): string {
    if HasInline(argument) then argument[|OptionName(argument)| + 1..] else ""
  }

  predicate TakesNext(o: OptionRules, argument: string) {
    !HasInline(argument) && (OptionName(argument) in o.path || OptionName(argument) in o.value)
  }

  // ----- the role of every argument -----

  datatype Role = Separator | OptionToken | PathValue | PlainValue | Positional

  function RoleAt(o: OptionRules, arguments: seq<string>, earlier: seq<Role>): Role
    requires |earlier| < |arguments|
  {
    var i := |earlier|;
    if i > 0 && earlier[i - 1] == OptionToken && TakesNext(o, arguments[i - 1]) then
      if OptionName(arguments[i - 1]) in o.path then PathValue else PlainValue
    else if arguments[i] == "--" then Separator
    else if Separator !in earlier && StartsWith(arguments[i], '-') then OptionToken
    else Positional
  }

  /** The roles of the first arguments. */
  function Roles(o: OptionRules, arguments: seq<string>, n: nat): (roles: seq<Role>)
    requires n <= |arguments|
    ensures |roles| == n
  {
    if n == 0 then [] else Roles(o, arguments, n - 1) + [RoleAt(o, arguments, Roles(o, arguments, n - 1))]
  }

  function RoleOf(o: OptionRules, arguments: seq<string>, i: nat): Role
    requires i < |arguments|
  {
    RoleAt(o, arguments, Roles(o, arguments, i))
  }

  lemma {:induction false} RolesAre(o: OptionRules, arguments: seq<string>, n: nat)
    requires n <= |arguments|
    ensures forall i :: 0 <= i < n ==> Roles(o, arguments, n)[i] == RoleOf(o, arguments, i)
  {
    hide RoleAt;
    if n > 0 {
      RolesAre(o, arguments, n - 1);
    }
  }

  /** A path for an option: inside the workspace, and not its root where that is barred. */
  predicate OptionPathOk(r: Rules, o: OptionRules, option: string, value: string) {
    PathOk(r, value) && (option in o.notRoot ==> r.resolve(PathPart(value)) != Some(r.root))
  }

  /** The root of the workspace is a path for every option but those it is barred from. */
  lemma RootBarredExactly(r: Rules, o: OptionRules, option: string, value: string)
    requires PathOk(r, value)
    ensures !OptionPathOk(r, o, option, value) <==> option in o.notRoot && r.resolve(PathPart(value)) == Some(r.root)
  {
    hide PathOk;
  }

  function Operand(argument: string): string {
    if StartsWith(argument, '@') then argument[1..] else argument
  }

  /** What an argument must satisfy in its role. */
  predicate RoleOk(r: Rules, o: OptionRules, arguments: seq<string>, i: nat)
    requires i < |arguments|
  {
    match RoleOf(o, arguments, i)
    case Separator => true
    case PlainValue => true
    case Positional => PathOk(r, Operand(arguments[i]))
    case PathValue => i > 0 && OptionPathOk(r, o, OptionName(arguments[i - 1]), arguments[i])
    case OptionToken =>
      var option := OptionName(arguments[i]);
      if option in o.path && HasInline(arguments[i]) then OptionPathOk(r, o, option, InlineValue(arguments[i]))
      else if o.special.Some? && HasInline(arguments[i]) && option !in o.path then
        o.special.value(option, InlineValue(arguments[i]))
      else TakesNext(o, arguments[i]) ==> i + 1 < |arguments|
  }

  predicate PathsAccepted(r: Rules, o: OptionRules, arguments: seq<string>) {
    forall i :: 0 <= i < |arguments| ==> RoleOk(r, o, arguments, i)
  }

  /** No value is still owed to an option. */
  predicate Settled(o: OptionRules, arguments: seq<string>, n: nat)
    requires n <= |arguments|
  {
    n == 0 || RoleOf(o, arguments, n - 1) != OptionToken || !TakesNext(o, arguments[n - 1])
  }

  lemma SettledRole(o: OptionRules, arguments: seq<string>, n: nat)
    requires n < |arguments| && Settled(o, arguments, n)
    ensures RoleOf(o, arguments, n) ==
            if arguments[n] == "--" then Separator
            else if Separator !in Roles(o, arguments, n) && StartsWith(arguments[n], '-') then OptionToken
            else Positional
    ensures Separator in Roles(o, arguments, n + 1) <==>
            Separator in Roles(o, arguments, n) || RoleOf(o, arguments, n) == Separator
  {
    hide TakesNext, OptionName, StartsWith;
    RolesAre(o, arguments, n);
  }

  lemma OwedRole(o: OptionRules, arguments: seq<string>, n: nat)
    requires n + 1 < |arguments| && RoleOf(o, arguments, n) == OptionToken && TakesNext(o, arguments[n])
    ensures RoleOf(o, arguments, n + 1) == if OptionName(arguments[n]) in o.path then PathValue else PlainValue
    ensures Settled(o, arguments, n + 2)
    ensures Separator in Roles(o, arguments, n + 2) <==> Separator in Roles(o, arguments, n)
  {
    hide TakesNext, OptionName, StartsWith;
    RolesAre(o, arguments, n + 1);
  }

  /** Accepts exactly the arguments whose every path is inside the workspace. */
  method ValidatePathOptions(r: Rules, o: OptionRules, arguments: seq<string>) returns (error: Option<Refusal>)
    ensures error == None <==> PathsAccepted(r, o, arguments)
  {
    hide RoleOf, Roles, PathOk, OptionName, HasInline, InlineValue, Operand, StartsWith, Settled;
    var index := 0;
    var positionalOnly := false;
    NothingSettled(o, arguments);
    while index < |arguments|
      invariant index <= |arguments| && Settled(o, arguments, index)
      invariant positionalOnly <==> Separator in Roles(o, arguments, index)
      invariant forall j :: 0 <= j < index ==> RoleOk(r, o, arguments, j)
    {
      var argument := arguments[index];
      SettledRole(o, arguments, index);
      ghost var role := RoleOf(o, arguments, index);
      NextSettled(o, arguments, index);
      if argument == "--" {
        positionalOnly := true;
        index := index + 1;
        continue;
      }
      if !positionalOnly && StartsWith(argument, '-') {
        var option, separator := OptionName(argument), HasInline(argument);
        if option in o.path {
          var value := InlineValue(argument);
          ghost var at := index;
          if !separator {
            index := index + 1;
            if index >= |arguments| {
              assert !RoleOk(r, o, arguments, at);
              return Some(InvalidArguments);
            }
            OwedRole(o, arguments, at);
            value := arguments[index];
          }
          if !OptionPathOk(r, o, option, value) {
            assert !RoleOk(r, o, arguments, index);
            return Some(Blocked);
          }
          assert RoleOk(r, o, arguments, at) && RoleOk(r, o, arguments, index);
        } else if o.special.Some? && separator {
          if !o.special.value(option, InlineValue(argument)) {
            assert !RoleOk(r, o, arguments, index);
            return Some(Blocked);
          }
        } else if option in o.value && !separator {
          ghost var at := index;
          index := index + 1;
          if index >= |arguments| {
            assert !RoleOk(r, o, arguments, at);
            return Some(InvalidArguments);
          }
          OwedRole(o, arguments, at);
          assert RoleOk(r, o, arguments, at) && RoleOk(r, o, arguments, index);
        }
        index := index + 1;
        continue;
      }
      if !PathOk(r, Operand(argument)) {
        assert !RoleOk(r, o, arguments, index);
        return Some(Blocked);
      }
      index := index + 1;
    }
    return None;
  }

  lemma NothingSettled(o: OptionRules, arguments: seq<string>)
    ensures Settled(o, arguments, 0) && Roles(o, arguments, 0) == []
  {
  }

  lemma NextSettled(o: OptionRules, arguments: seq<string>, n: nat)
    requires n < |arguments|
    ensures Settled(o, arguments, n + 1) <==> RoleOf(o, arguments, n) != OptionToken || !TakesNext(o, arguments[n])
  {
  }

  /** What acceptance means token by token: an argument that is not a separator, not an
      option before the first separator and not the value of the option before it, is a
      path inside the workspace; after a separator nothing but separators escapes. */
  lemma EveryOperandChecked(r: Rules, o: OptionRules, arguments: seq<string>, i: nat)
    requires PathsAccepted(r, o, arguments) && i < |arguments|
    ensures || arguments[i] == "--"
            || PathOk(r, Operand(arguments[i]))
            || (StartsWith(arguments[i], '-') && Separator !in Roles(o, arguments, i))
            || (i > 0 && RoleOf(o, arguments, i - 1) == OptionToken && TakesNext(o, arguments[i - 1]) &&
                (OptionName(arguments[i - 1]) in o.path ==> PathOk(r, arguments[i])))
    ensures Separator in Roles(o, arguments, i) && arguments[i] != "--" ==> PathOk(r, Operand(arguments[i]))
  {
    hide PathOk, OptionName, HasInline, Operand, StartsWith, TakesNext;
    assert RoleOk(r, o, arguments, i);
    RolesAre(o, arguments, i);
  }
}
