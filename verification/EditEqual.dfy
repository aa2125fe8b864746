/** Replacing a text by itself: when exactly it leaves a file as it is. */
module EditEqual {
  import opened Prelude
  import opened EditText
  import opened EditEngine
  import opened EditApply
  import opened EditTheory

  /** The unit an edit by the same text leaves at `i`: inside a match a newline takes the
      style that dominates the match. */
  function UnitLeft(us: Units, starts: seq<nat>, len: nat, dominant: Style, i: nat): Unit
    requires i < |us| && ValidStarts(0, starts, len, |us|)
    decreases |starts|
  {
    if starts == [] || i < starts[0] || us[i].Plain? then us[i]
    else if i < starts[0] + len then Dominant(us[starts[0]..starts[0] + len], dominant)
    else LaterStarts(starts, len, |us|); UnitLeft(us, starts[1..], len, dominant, i)
  }

  lemma {:induction false} LaterStarts(starts: seq<nat>, len: nat, size: nat)
    requires starts != [] && ValidStarts(0, starts, len, size)
    ensures ValidStarts(0, starts[1..], len, size)
  {
  }

  lemma EarlierFrom(from: nat, starts: seq<nat>, len: nat, size: nat)
    requires ValidStarts(from, starts, len, size)
    ensures ValidStarts(0, starts, len, size)
  {
  }

  /** Every newline inside a match has the style that dominates the match, except that
      the last unit of the file may have any. */
  predicate OneStyleMatches(before: string, target: string)
    requires target != ""
  {
    var us, t := Parse(before), NormalizeNewlines(target);
    TwoPassAgrees(before);
    NormalizedHasNoCr(target);
    StartsAreValid(Chars(us), t, 0);
    var starts := MatchStarts(Chars(us), t, 0);
    forall i: nat | i + 1 < |us| :: UnitLeft(us, starts, |t|, Dominant(us, Lf), i) == us[i]
  }

  lemma RestyledAt(us: Units, s: nat, target: string, style: Style, i: nat)
    requires Valid(us) && MatchesAt(Chars(us), target, s) && s <= i < s + |target|
    ensures i < |us| && Styled(target, style)[i - s] == if us[i].Plain? then us[i] else style
  {
    assert Chars(us)[s..s + |target|][i - s] == Chars(us)[i];
    assert us[i] in us;
  }

  lemma {:induction false} EditedUnitsLeft(us: Units, from: nat, starts: seq<nat>, target: string, dominant: Style, i: nat)
    requires Valid(us) && ValidStarts(from, starts, |target|, |us|) && ValidStarts(0, starts, |target|, |us|)
    requires forall s :: s in starts ==> MatchesAt(Chars(us), target, s)
    requires from <= i < |us|
    ensures var edited := EditedUnits(us, from, starts, |target|, target, dominant);
            |edited| == |us| - from && edited[i - from] == UnitLeft(us, starts, |target|, dominant, i)
    decreases |starts|
  {
    hide Dominant, Styled, Chars, Valid, MatchesAt;
    if starts != [] {
      var s, len := starts[0], |target|;
      var gap, mid := us[from..s], Styled(target, Dominant(us[s..s + len], dominant));
      LaterStarts(starts, len, |us|);
      assert |mid| == len;
      EditedLength(us, s + len, starts[1..], target, dominant);
      if i < s {
        assert (gap + mid)[i - from] == gap[i - from];
      } else if i < s + len {
        RestyledAt(us, s, target, Dominant(us[s..s + len], dominant), i);
        assert (gap + mid)[i - from] == mid[i - s];
      } else {
        EditedUnitsLeft(us, s + len, starts[1..], target, dominant, i);
      }
    }
  }

  lemma {:induction false} EditedLength(us: Units, from: nat, starts: seq<nat>, target: string, dominant: Style)
    requires ValidStarts(from, starts, |target|, |us|)
    ensures |EditedUnits(us, from, starts, |target|, target, dominant)| == |us| - from
    decreases |starts|
  {
    hide Dominant, Styled;
    if starts != [] {
      EditedLength(us, starts[0] + |target|, starts[1..], target, dominant);
    }
  }

  // ----- the last two units -----

  lemma DominantSingle(u: Unit, dominant: Style)
    requires !u.Plain?
    ensures Dominant([u], dominant) == u
  {
    CountSingle(u, CrLf);
    CountSingle(u, Lf);
    CountSingle(u, Cr);
    assert [u][..0] == [] && Newlines([u]) == 1;
  }

  lemma CountSingle(u: Unit, style: Style)
    ensures Count([u], style) == if u == style then 1 else 0
  {
    assert [u][..0] == [];
    assert Count([u][..0], style) == 0;
  }

  /** A carriage return that stays does not end up before a line feed at the end. */
  lemma {:induction false} EndStaysWhole(us: Units, starts: seq<nat>, len: nat, dominant: Style)
    requires ValidStarts(0, starts, len, |us|) && len >= 1 && |us| >= 2
    requires us[|us| - 2] == Cr && !us[|us| - 1].Plain? && us[|us| - 1] != Lf
    requires UnitLeft(us, starts, len, dominant, |us| - 2) == Cr
    ensures UnitLeft(us, starts, len, dominant, |us| - 1) != Lf
    decreases |starts|
  {
    hide Dominant;
    var n := |us|;
    if starts != [] && starts[0] <= n - 1 {
      var s := starts[0];
      if n - 1 < s + len {
        if s == n - 1 {
          assert us[s..s + len] == [us[n - 1]];
          DominantSingle(us[n - 1], dominant);
        }
      } else {
        LaterStarts(starts, len, n);
        if n - 2 < s + len {
          NotYet(us, starts, len, dominant);
        }
        EndStaysWhole(us, starts[1..], len, dominant);
      }
    }
  }

  lemma NotYet(us: Units, starts: seq<nat>, len: nat, dominant: Style)
    requires |us| >= 2 && starts != [] && ValidStarts(0, starts, len, |us|) && |us| - 2 < starts[0] + len
    ensures ValidStarts(0, starts[1..], len, |us|)
    ensures UnitLeft(us, starts[1..], len, dominant, |us| - 2) == us[|us| - 2]
  {
    LaterStarts(starts, len, |us|);
    if starts[1..] != [] {
      assert ValidStarts(starts[0] + len, starts[1..], len, |us|);
    }
  }

  // ----- the whole edit -----

  /** What the edit splices, unit by unit. */
  lemma SplicedLeft(before: string, target: string, insert: string)
    requires target != "" && NormalizeNewlines(target) == NormalizeNewlines(insert)
    ensures var us, x := Parse(before), Spliced(before, target, insert);
            && |x| == |us| && Valid(x) && Chars(x) == Chars(us)
            && (OneStyleMatches(before, target) <==> forall i: nat :: i + 1 < |us| ==> x[i] == us[i])
    ensures var us, x := Parse(before), Spliced(before, target, insert);
            |us| >= 2 && us[|us| - 2] == Cr && x[|us| - 2] == Cr && !us[|us| - 1].Plain? && us[|us| - 1] != Lf ==>
              x[|us| - 1] != Lf
  {
    hide NormalizeNewlines, Parse, Chars, EditedUnits, MatchStarts, Dominant, Valid, UnitLeft, MatchesAt, ValidStarts;
    NormalizedHasNoCr(target);
    TwoPassAgrees(before);
    var us, t, d := Parse(before), NormalizeNewlines(target), Dominant(Parse(before), Lf);
    var x := Spliced(before, target, insert);
    StartsAreValid(Chars(us), t, 0);
    var starts := MatchStarts(Chars(us), t, 0);
    StartsMatch(Chars(us), t, 0);
    SplicedIsValid(before, target, insert);
    EditedLength(us, 0, starts, t, d);
    forall i: nat | i < |us| ensures x[i] == UnitLeft(us, starts, |t|, d, i) {
      EditedUnitsLeft(us, 0, starts, t, d, i);
    }
    SameChars(us, starts, |t|, d, x);
    if |us| >= 2 && us[|us| - 2] == Cr && x[|us| - 2] == Cr && !us[|us| - 1].Plain? && us[|us| - 1] != Lf {
      EndStaysWhole(us, starts, |t|, d);
    }
  }

  lemma SameChars(us: Units, starts: seq<nat>, len: nat, dominant: Style, x: Units)
    requires ValidStarts(0, starts, len, |us|) && |x| == |us|
    requires forall i: nat :: i < |us| ==> x[i] == UnitLeft(us, starts, len, dominant, i)
    ensures Chars(x) == Chars(us)
  {
    hide Dominant;
    forall i: nat | i < |us| ensures UnitChar(x[i]) == UnitChar(us[i]) {
      SameCharLeft(us, starts, len, dominant, i);
    }
  }

  lemma {:induction false} SameCharLeft(us: Units, starts: seq<nat>, len: nat, dominant: Style, i: nat)
    requires i < |us| && ValidStarts(0, starts, len, |us|)
    ensures UnitChar(UnitLeft(us, starts, len, dominant, i)) == UnitChar(us[i])
    decreases |starts|
  {
    hide Dominant;
    if starts != [] {
      LaterStarts(starts, len, |us|);
      SameCharLeft(us, starts[1..], len, dominant, i);
    }
  }

  /** The result has as many units as the file. */
  lemma ResultLength(before: string, x: Units)
    requires var us := Parse(before); |x| == |us| && Chars(x) == Chars(us) && Valid(x)
    ensures |ResultUnits(before, x)| == |x|
    ensures forall i: nat :: i + 1 < |x| ==> ResultUnits(before, x)[i] == x[i]
    ensures x != [] ==> ResultUnits(before, x)[|x| - 1] == Parse(before)[|x| - 1]
  {
    hide Parse, Terminal, Valid;
    var us := Parse(before);
    TerminalOfText(before);
    if x != [] {
      var k := |x| - 1;
      assert UnitChar(x[k]) == Chars(x)[k] == Chars(us)[k] == UnitChar(us[k]);
      assert x[k] in x && us[k] in us;
      LastAlike(x[k], us[k]) by { assert ValidUnit(x[k]) && ValidUnit(us[k]) by { assert Valid(x) && Valid(us); EachValid(x, k); EachValid(us, k); } }
    }
  }

  lemma EachValid(us: Units, k: nat)
    requires Valid(us) && k < |us|
    ensures ValidUnit(us[k])
  {
    assert us[k] in us;
  }

  lemma LastAlike(u: Unit, v: Unit)
    requires ValidUnit(u) && ValidUnit(v) && UnitChar(u) == UnitChar(v)
    ensures u.Plain? <==> v.Plain?
    ensures u.Plain? ==> u == v
  {
  }

  /** Replacing a text by itself leaves a file as it is exactly when every match has one
      newline style, the last unit of the file aside. */
  lemma EqualEditExactly(before: string, target: string, insert: string)
    requires target != "" && NormalizeNewlines(target) == NormalizeNewlines(insert)
    ensures PreserveTerminal(Render(Spliced(before, target, insert)), before) == before <==>
            OneStyleMatches(before, target)
  {
    hide NormalizeNewlines, Render, Parse, Chars, PreserveTerminal, Valid, Spliced, OneStyleMatches, Terminal, ResultUnits, NoSplit;
    var us, x := Parse(before), Spliced(before, target, insert);
    SplicedLeft(before, target, insert);
    ResultLength(before, x);
    ResultRenders(before, x);
    RenderParse(before);
    ParseNoSplit(before);
    TerminalOfText(before);
    var r := ResultUnits(before, x);
    if Terminal(before).Some? && EndsSplit(x) {
      TwoPassAgrees(before);
      EndSplitShortens(before, x);
      if OneStyleMatches(before, target) {
        NoPairAtEnd(us);
      }
    } else {
      if r == us {
        assert forall i: nat :: i + 1 < |us| ==> x[i] == us[i];
      } else if PreserveTerminal(Render(x), before) == before {
        ParseRenderCount(r);
        SplitsZero(r);
      }
      if OneStyleMatches(before, target) {
        assert r == us;
      }
    }
  }

  lemma NoPairAtEnd(us: Units)
    requires NoSplit(us) && |us| >= 2 && us[|us| - 2] == Cr
    ensures us[|us| - 1] != Lf
  {
    assert !SplitAt(us, |us| - 2);
  }
}
