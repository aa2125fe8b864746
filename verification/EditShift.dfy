/** An edit that does not match at the first character of a text leaves that character
    alone: it is the edit of the rest. */
module EditShift {
  import opened Prelude
  import opened EditText
  import opened EditEngine
  import opened EditApply

  predicate OrdinaryChar(c: char) {
    c != '\r' && c != '\n'
  }

  lemma ParseHead(c: char, s: string)
    requires OrdinaryChar(c)
    ensures Parse([c] + s) == [Plain(c)] + Parse(s)
    ensures NormalizeNewlines([c] + s) == [c] + NormalizeNewlines(s)
  {
    assert FirstUnit([c] + s) == Plain(c) && ([c] + s)[1..] == s;
    TwoPassAgrees([c] + s);
    TwoPassAgrees(s);
    CharsHead(Plain(c), Parse(s));
  }

  // ----- dominant style -----

  lemma {:induction false} HeadCounts(c: char, us: Units, style: Style)
    ensures Count([Plain(c)] + us, style) == Count(us, style)
    ensures Newlines([Plain(c)] + us) == Newlines(us)
    ensures FirstSeen([Plain(c)] + us, style) == FirstSeen(us, style)
  {
    var all := [Plain(c)] + us;
    if us == [] {
      assert all == [Plain(c)] && all[..0] == [];
    } else {
      var init := us[..|us| - 1];
      HeadCounts(c, init, style);
      assert all[..|all| - 1] == [Plain(c)] + init && all[|all| - 1] == us[|us| - 1];
    }
  }

  lemma DominantHead(c: char, us: Units, fallback: Style)
    ensures Dominant([Plain(c)] + us, fallback) == Dominant(us, fallback)
  {
    hide Outranks, Newlines;
    HeadCounts(c, us, CrLf);
    OutranksHead(c, us, CrLf, Lf);
    OutranksHead(c, us, CrLf, Cr);
    OutranksHead(c, us, Lf, CrLf);
    OutranksHead(c, us, Lf, Cr);
  }

  lemma OutranksHead(c: char, us: Units, a: Style, b: Style)
    ensures Outranks([Plain(c)] + us, a, b) <==> Outranks(us, a, b)
  {
    hide Count, FirstSeen;
    HeadCounts(c, us, a);
    HeadCounts(c, us, b);
  }

  // ----- matches -----

  function Shifted(starts: seq<nat>): (r: seq<nat>)
    ensures |r| == |starts| && forall i :: 0 <= i < |r| ==> r[i] == starts[i] + 1
  {
    seq(|starts|, i requires 0 <= i < |starts| => starts[i] + 1)
  }

  lemma MatchShift(c: char, n: string, t: string, i: nat)
    ensures MatchesAt([c] + n, t, i + 1) <==> MatchesAt(n, t, i)
  {
    if i + |t| <= |n| {
      assert ([c] + n)[i + 1..i + 1 + |t|] == n[i..i + |t|];
    }
  }

  lemma {:induction false} FindShift(c: char, n: string, t: string, start: nat)
    ensures Find([c] + n, t, start + 1) ==
            match Find(n, t, start)
            case None => None
            case Some(found) => Some(found + 1)
    decreases |n| - start
  {
    hide MatchesAt;
    MatchShift(c, n, t, start);
    if start + |t| <= |n| && !MatchesAt(n, t, start) {
      FindShift(c, n, t, start + 1);
    }
  }

  lemma {:induction false} StartsShift(c: char, n: string, t: string, start: nat)
    requires t != ""
    ensures MatchStarts([c] + n, t, start + 1) == Shifted(MatchStarts(n, t, start))
    decreases |n| - start
  {
    hide Find, MatchStarts, MatchesAt, Shifted;
    NextStart([c] + n, t, start + 1);
    NextStart(n, t, start);
    FindShift(c, n, t, start);
    if Find(n, t, start).Some? {
      var found := Find(n, t, start).value;
      StartsShift(c, n, t, found + |t|);
      ShiftedHead(found, MatchStarts(n, t, found + |t|));
    } else {
      assert Shifted([]) == [];
    }
  }

  lemma ShiftedHead(x: nat, rest: seq<nat>)
    ensures Shifted([x] + rest) == [x + 1] + Shifted(rest)
  {
  }

  lemma StartsAfterHead(c: char, n: string, t: string)
    requires t != "" && !MatchesAt([c] + n, t, 0)
    ensures MatchStarts([c] + n, t, 0) == Shifted(MatchStarts(n, t, 0))
  {
    hide MatchesAt;
    StartsShift(c, n, t, 0);
    NextStart([c] + n, t, 0);
    NextStart([c] + n, t, 1);
  }

  // ----- splicing -----

  lemma {:induction false} EditedShift(c: char, us: Units, from: nat, starts: seq<nat>, len: nat, insert: string, dominant: Style)
    requires ValidStarts(from, starts, len, |us|)
    ensures ValidStarts(from + 1, Shifted(starts), len, |us| + 1)
    ensures EditedUnits([Plain(c)] + us, from + 1, Shifted(starts), len, insert, dominant) ==
            EditedUnits(us, from, starts, len, insert, dominant)
    decreases |starts|
  {
    hide Dominant, Styled;
    var all := [Plain(c)] + us;
    if starts == [] {
      assert all[from + 1..] == us[from..];
    } else {
      var s := starts[0];
      EditedShift(c, us, s + len, starts[1..], len, insert, dominant);
      assert Shifted(starts)[1..] == Shifted(starts[1..]);
      SliceHead(Plain(c), us, from, s);
      SliceHead(Plain(c), us, s, s + len);
    }
  }

  lemma EditedHead(c: char, us: Units, starts: seq<nat>, len: nat, insert: string, dominant: Style)
    requires ValidStarts(0, starts, len, |us|)
    ensures ValidStarts(0, Shifted(starts), len, |us| + 1)
    ensures EditedUnits([Plain(c)] + us, 0, Shifted(starts), len, insert, dominant) ==
            [Plain(c)] + EditedUnits(us, 0, starts, len, insert, dominant)
  {
    hide Dominant, Styled, EditedUnits;
    var all := [Plain(c)] + us;
    if starts == [] {
      NoMoreEdits(all, 0, len, insert, dominant);
      NoMoreEdits(us, 0, len, insert, dominant);
      assert all[0..] == all && us[0..] == us;
    } else {
      var s := starts[0];
      EditedShift(c, us, s + len, starts[1..], len, insert, dominant);
      assert Shifted(starts)[1..] == Shifted(starts[1..]);
      NextEdit(all, 0, Shifted(starts), len, insert, dominant);
      NextEdit(us, 0, starts, len, insert, dominant);
      SliceHead(Plain(c), us, s, s + len);
      SliceHead(Plain(c), us, 0, s);
      var mid := Styled(insert, Dominant(us[s..s + len], dominant));
      Regroup([Plain(c)], us[0..s], mid, EditedUnits(us, s + len, starts[1..], len, insert, dominant));
    }
  }

  lemma SliceHead(u: Unit, us: Units, i: nat, j: nat)
    requires i <= j <= |us|
    ensures ([u] + us)[i + 1..j + 1] == us[i..j] && ([u] + us)[0..j + 1] == [u] + us[0..j]
  {
  }

  lemma Regroup(a: Units, b: Units, c: Units, d: Units)
    ensures ((a + b) + c) + d == a + ((b + c) + d)
  {
  }

  lemma NoMoreEdits(us: Units, from: nat, len: nat, insert: string, dominant: Style)
    requires from <= |us|
    ensures EditedUnits(us, from, [], len, insert, dominant) == us[from..]
  {
  }

  lemma NextEdit(us: Units, from: nat, starts: seq<nat>, len: nat, insert: string, dominant: Style)
    requires starts != [] && ValidStarts(from, starts, len, |us|)
    ensures var s := starts[0];
            EditedUnits(us, from, starts, len, insert, dominant) ==
            us[from..s] + Styled(insert, Dominant(us[s..s + len], dominant)) +
            EditedUnits(us, s + len, starts[1..], len, insert, dominant)
  {
    hide Dominant, Styled;
  }

  /** The first character is kept and the rest is spliced. */
  lemma SplicedHead(c: char, text: string, target: string, insert: string)
    requires OrdinaryChar(c) && target != "" && NormalizeNewlines(target) != ""
    requires !MatchesAt(NormalizeNewlines([c] + text), NormalizeNewlines(target), 0)
    ensures Spliced([c] + text, target, insert) == [Plain(c)] + Spliced(text, target, insert)
  {
    hide NormalizeNewlines, Parse, Dominant, EditedUnits, MatchStarts, MatchesAt, ValidStarts, Chars;
    var us, t, i := Parse(text), NormalizeNewlines(target), NormalizeNewlines(insert);
    ParseHead(c, text);
    TwoPassAgrees(text);
    TwoPassAgrees([c] + text);
    StartsAfterHead(c, NormalizeNewlines(text), t);
    StartsAreValid(NormalizeNewlines(text), t, 0);
    DominantHead(c, us, Lf);
    EditedHead(c, us, MatchStarts(Chars(us), t, 0), |t|, i, Dominant(us, Lf));
  }

  // ----- the terminal newline -----

  lemma TerminalHead(c: char, s: string)
    requires OrdinaryChar(c)
    ensures Terminal([c] + s) == Terminal(s)
  {
    var all := [c] + s;
    if |s| >= 2 {
      assert all[|all| - 2..] == s[|s| - 2..];
    } else if |s| == 1 {
      assert all[|all| - 2..] == all && all[0] == c;
    }
    if s != "" {
      assert all[|all| - 1] == s[|s| - 1];
    }
  }

  lemma {:induction false} StripHead(c: char, s: string)
    requires OrdinaryChar(c)
    ensures StripNewlines([c] + s) == [c] + StripNewlines(s)
  {
    var all := [c] + s;
    if s != "" {
      assert all[|all| - 1] == s[|s| - 1] && all[..|all| - 1] == [c] + s[..|s| - 1];
      if s[|s| - 1] == '\r' || s[|s| - 1] == '\n' {
        StripHead(c, s[..|s| - 1]);
      }
    }
  }

  lemma PreserveHead(c: char, after: string, before: string)
    requires OrdinaryChar(c)
    ensures PreserveTerminal([c] + after, [c] + before) == [c] + PreserveTerminal(after, before)
  {
    hide Terminal, StripNewlines;
    TerminalHead(c, after);
    TerminalHead(c, before);
    StripHead(c, after);
    EndingLength(after);
    match Terminal(before)
    case None =>
    case Some(original) =>
      match Terminal(after)
      case None => assert ([c] + after) + UnitText(original) == [c] + (after + UnitText(original));
      case Some(current) =>
        var k := |after| - |UnitText(current)|;
        assert ([c] + after)[..k + 1] == [c] + after[..k];
        assert ([c] + after[..k]) + UnitText(original) == [c] + (after[..k] + UnitText(original));
  }

  lemma EndingLength(s: string)
    ensures Terminal(s).Some? ==> |UnitText(Terminal(s).value)| <= |s|
  {
  }

  // ----- the whole edit -----

  /** An edit whose target is not at the first character is the edit of the rest. */
  lemma EditShifts(c: char, text: string, target: string, insert: string, expected: nat)
    requires OrdinaryChar(c) && target != ""
    requires !MatchesAt(NormalizeNewlines([c] + text), NormalizeNewlines(target), 0)
    ensures EditResult([c] + text, target, insert, expected) ==
            match EditResult(text, target, insert, expected)
            case Err(error) => Err(error)
            case Ok((after, count)) => Ok(([c] + after, count))
  {
    hide NormalizeNewlines, Spliced, Render, PreserveTerminal, CountMatches, MatchesAt, EditResult;
    NormalizedHasNoCr(target);
    EditOutcome([c] + text, target, insert, expected);
    EditOutcome(text, target, insert, expected);
    ParseHead(c, text);
    CountHead(c, NormalizeNewlines(text), NormalizeNewlines(target));
    SplicedHead(c, text, target, insert);
    RenderHead(Plain(c), Spliced(text, target, insert));
    PreserveHead(c, Render(Spliced(text, target, insert)), text);
  }

  lemma CountHead(c: char, n: string, t: string)
    requires t != "" && !MatchesAt([c] + n, t, 0)
    ensures CountMatches([c] + n, t) == CountMatches(n, t)
  {
    hide CountMatches, ReplaceAll;
    var all := [c] + n;
    NoMatchHere(all, 0, t, "");
    assert all[0..] == all && all[1..] == n;
  }
}
