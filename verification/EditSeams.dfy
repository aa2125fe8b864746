/** When an edit is plain, decided from its inputs: only the places where kept text
    and inserted text meet can merge two newlines into one. */
module EditSeams {
  import opened Prelude
  import opened EditText
  import opened EditEngine
  import opened EditApply
  import opened EditTheory

  // ----- the condition, on the units of the file before the edit -----

  /** No carriage return unit meets a line feed unit where `b` follows `a`. */
  predicate Joins(a: Units, b: Units) {
    a != [] && b != [] ==> !(a[|a| - 1] == Cr && b[0] == Lf)
  }

  function LastTwo(us: Units): Units {
    if |us| <= 2 then us else us[|us| - 2..]
  }

  predicate HasPlain(us: Units) {
    exists i | 0 <= i < |us| :: us[i].Plain?
  }

  /** An ordinary character is still to come, in the file or in an insertion. */
  predicate PlainAhead(us: Units, from: nat, starts: seq<nat>, len: nat, insert: string)
    requires ValidStarts(from, starts, len, |us|)
    decreases |starts|
  {
    if starts == [] then HasPlain(us[from..])
    else
      || HasPlain(us[from..starts[0]])
      || (exists i | 0 <= i < |insert| :: insert[i] != '\n')
      || PlainAhead(us, starts[0] + len, starts[1..], len, insert)
  }

  /** Walk the matches, knowing only the last units written. Each seam must hold:
      kept text after what was written last, then the insertion in its local style.
      A seam is excused when `kept` is false and only newlines follow, since those
      are stripped. */
  predicate SeamsHold(us: Units, from: nat, starts: seq<nat>, len: nat, insert: string, dominant: Style,
                      last: Units, kept: bool)
    requires ValidStarts(from, starts, len, |us|)
    decreases |starts|
  {
    if starts == [] then Joins(last, us[from..]) || !(kept || HasPlain(us[from..]))
    else
      var gap := us[from..starts[0]];
      var mid := Styled(insert, Dominant(us[starts[0]..starts[0] + len], dominant));
      var ahead := kept || PlainAhead(us, starts[0] + len, starts[1..], len, insert) || HasPlain(mid);
      && (Joins(last, gap) || !(ahead || HasPlain(gap)))
      && (Joins(LastTwo(last + gap), mid) || !ahead)
      && SeamsHold(us, starts[0] + len, starts[1..], len, insert, dominant, LastTwo(last + gap + mid), kept)
  }

  /** The last two units written. */
  function Ending(us: Units, from: nat, starts: seq<nat>, len: nat, insert: string, dominant: Style, last: Units): Units
    requires ValidStarts(from, starts, len, |us|)
    decreases |starts|
  {
    if starts == [] then LastTwo(last + us[from..])
    else
      var mid := Styled(insert, Dominant(us[starts[0]..starts[0] + len], dominant));
      Ending(us, starts[0] + len, starts[1..], len, insert, dominant, LastTwo(last + us[from..starts[0]] + mid))
  }

  /** Every seam holds, and a final line feed is not put back behind a carriage return. */
  predicate NothingMerges(before: string, target: string, insert: string)
    requires target != ""
  {
    var us, i := Parse(before), NormalizeNewlines(insert);
    var t := NormalizeNewlines(target);
    TwoPassAgrees(before);
    NormalizedHasNoCr(target);
    StartsAreValid(Chars(us), t, 0);
    var starts := MatchStarts(Chars(us), t, 0);
    && SeamsHold(us, 0, starts, |t|, i, Dominant(us, Lf), [], Terminal(before).Some?)
    && (Terminal(before) == Some(Lf) ==>
          var end := Ending(us, 0, starts, |t|, i, Dominant(us, Lf), []);
          !(|end| == 2 && end[0] == Cr && !end[1].Plain?))
  }

  // ----- splits that matter -----

  /** No split has an ordinary character, or whatever `ahead` stands for, behind it. */
  ghost predicate Harmless(us: Units, ahead: bool) {
    forall i: nat | i + 1 < |us| :: SplitAt(us, i) ==> !ahead && !HasPlain(us[i + 2..])
  }

  lemma HarmlessKept(us: Units)
    ensures Harmless(us, true) <==> NoSplit(us)
  {
  }

  lemma HasPlainConcat(a: Units, b: Units)
    ensures HasPlain(a + b) <==> HasPlain(a) || HasPlain(b)
  {
    if i :| 0 <= i < |a| && a[i].Plain? {
      assert (a + b)[i] == a[i];
    }
    if i :| 0 <= i < |b| && b[i].Plain? {
      assert (a + b)[|a| + i] == b[i];
    }
  }

  lemma NoSplitIsHarmless(us: Units, ahead: bool)
    requires NoSplit(us)
    ensures Harmless(us, ahead)
  {
  }

  lemma PlainAfter(us: Units, i: nat)
    requires i < |us| && !us[i].Plain?
    ensures HasPlain(us[i..]) <==> HasPlain(us[i + 1..])
  {
    assert us[i..] == [us[i]] + us[i + 1..];
    HasPlainConcat([us[i]], us[i + 1..]);
  }

  lemma HarmlessLeft(a: Units, b: Units, ahead: bool)
    requires Harmless(a + b, ahead)
    ensures Harmless(a, ahead || HasPlain(b))
  {
    forall i: nat | i + 1 < |a| && SplitAt(a, i) ensures !(ahead || HasPlain(b)) && !HasPlain(a[i + 2..]) {
      assert SplitAt(a + b, i);
      assert (a + b)[i + 2..] == a[i + 2..] + b;
      HasPlainConcat(a[i + 2..], b);
    }
  }

  lemma HarmlessRight(a: Units, b: Units, ahead: bool)
    requires Harmless(a + b, ahead)
    ensures Harmless(b, ahead)
    ensures Joins(a, b) || !(ahead || HasPlain(b))
  {
    forall i: nat | i + 1 < |b| && SplitAt(b, i) ensures !ahead && !HasPlain(b[i + 2..]) {
      assert SplitAt(a + b, |a| + i);
      assert (a + b)[|a| + i + 2..] == b[i + 2..];
    }
    if !Joins(a, b) {
      assert SplitAt(a + b, |a| - 1);
      assert (a + b)[|a| - 1 + 2..] == b[1..];
      PlainAfter(b, 0);
      assert b[0..] == b;
    }
  }

  lemma HarmlessBoth(a: Units, b: Units, ahead: bool)
    requires Harmless(a, ahead || HasPlain(b)) && Harmless(b, ahead)
    requires Joins(a, b) || !(ahead || HasPlain(b))
    ensures Harmless(a + b, ahead)
  {
    forall i: nat | i + 1 < |a + b| && SplitAt(a + b, i) ensures !ahead && !HasPlain((a + b)[i + 2..]) {
      if i + 1 < |a| {
        assert SplitAt(a, i);
        assert (a + b)[i + 2..] == a[i + 2..] + b;
        HasPlainConcat(a[i + 2..], b);
      } else if i >= |a| {
        assert SplitAt(b, i - |a|);
        assert (a + b)[i + 2..] == b[i - |a| + 2..];
      } else {
        assert !Joins(a, b);
        assert (a + b)[i + 2..] == b[1..];
        PlainAfter(b, 0);
        assert b[0..] == b;
      }
    }
  }

  lemma HarmlessConcat(a: Units, b: Units, ahead: bool)
    ensures Harmless(a + b, ahead) <==>
            Harmless(a, ahead || HasPlain(b)) && Harmless(b, ahead) && (Joins(a, b) || !(ahead || HasPlain(b)))
  {
    if Harmless(a + b, ahead) {
      HarmlessLeft(a, b, ahead);
      HarmlessRight(a, b, ahead);
    } else if Harmless(a, ahead || HasPlain(b)) && Harmless(b, ahead) && (Joins(a, b) || !(ahead || HasPlain(b))) {
      HarmlessBoth(a, b, ahead);
    }
  }

  // ----- the walk sees every split -----

  lemma StyledHasPlain(insert: string, style: Style)
    ensures HasPlain(Styled(insert, style)) <==> exists i :: 0 <= i < |insert| && insert[i] != '\n'
  {
    if i :| 0 <= i < |insert| && insert[i] != '\n' {
      assert Styled(insert, style)[i].Plain?;
    }
  }

  lemma StyledNoSplit(insert: string, style: Style)
    ensures NoSplit(Styled(insert, style))
  {
  }

  lemma {:induction false} PlainAheadIs(us: Units, from: nat, starts: seq<nat>, len: nat, insert: string, dominant: Style)
    requires ValidStarts(from, starts, len, |us|)
    ensures PlainAhead(us, from, starts, len, insert) <==>
            HasPlain(EditedUnits(us, from, starts, len, insert, dominant))
    decreases |starts|
  {
    hide HasPlain, Dominant, Styled;
    if starts != [] {
      var s := starts[0];
      var gap, mid := us[from..s], Styled(insert, Dominant(us[s..s + len], dominant));
      var rest := EditedUnits(us, s + len, starts[1..], len, insert, dominant);
      PlainAheadIs(us, s + len, starts[1..], len, insert, dominant);
      StyledHasPlain(insert, Dominant(us[s..s + len], dominant));
      HasPlainConcat(gap, mid);
      HasPlainConcat(gap + mid, rest);
    }
  }

  lemma LastTwoJoins(a: Units, b: Units)
    ensures Joins(LastTwo(a), b) <==> Joins(a, b)
  {
  }

  lemma LastTwoConcat(a: Units, b: Units)
    ensures LastTwo(LastTwo(a) + b) == LastTwo(a + b)
  {
  }

  /** Whatever was written before, the rest of the edit merges no newlines exactly
      when its seams hold. */
  lemma {:induction false} WalkSeesSplits(us: Units, from: nat, starts: seq<nat>, len: nat, insert: string,
                                          dominant: Style, written: Units, kept: bool)
    requires ValidStarts(from, starts, len, |us|) && NoSplit(us)
    ensures var rest := EditedUnits(us, from, starts, len, insert, dominant);
            && (Harmless(written + rest, kept) <==>
                  Harmless(written, kept || HasPlain(rest)) &&
                  SeamsHold(us, from, starts, len, insert, dominant, LastTwo(written), kept))
            && Ending(us, from, starts, len, insert, dominant, LastTwo(written)) == LastTwo(written + rest)
    decreases |starts|
  {
    hide HasPlain, Dominant, Styled, Harmless, Joins, LastTwo, NoSplit;
    if starts == [] {
      var tail := us[from..];
      assert us[from..|us|] == tail;
      NoSplitSlice(us, from, |us|);
      NoSplitIsHarmless(tail, kept);
      HarmlessConcat(written, tail, kept);
      LastTwoJoins(written, tail);
      LastTwoConcat(written, tail);
    } else {
      var s := starts[0];
      var style := Dominant(us[s..s + len], dominant);
      var gap, mid := us[from..s], Styled(insert, style);
      var rest := EditedUnits(us, s + len, starts[1..], len, insert, dominant);
      NoSplitSlice(us, from, s);
      StyledNoSplit(insert, style);
      WalkSeesSplits(us, s + len, starts[1..], len, insert, dominant, written + gap + mid, kept);
      PlainAheadIs(us, s + len, starts[1..], len, insert, dominant);
      TwoSeams(written, gap, mid, rest, kept);
      LastTwoConcat(written, gap);
      LastTwoJoins(written, gap);
      LastTwoJoins(written + gap, mid);
      LastTwoConcat(written, gap + mid);
      ConcatAssociates(written, gap, mid);
      ConcatAssociates(LastTwo(written), gap, mid);
      ConcatAssociates(written + gap, mid, rest);
      ConcatAssociates(written, gap + mid, rest);
    }
  }

  lemma TwoSeams(written: Units, gap: Units, mid: Units, rest: Units, kept: bool)
    requires NoSplit(gap) && NoSplit(mid)
    ensures HasPlain(gap + mid + rest) <==> HasPlain(gap) || HasPlain(mid) || HasPlain(rest)
    ensures var ahead := kept || HasPlain(rest) || HasPlain(mid);
            Harmless(written + gap + mid, kept || HasPlain(rest)) <==>
            && Harmless(written, kept || HasPlain(gap + mid + rest))
            && (Joins(written, gap) || !(ahead || HasPlain(gap)))
            && (Joins(written + gap, mid) || !ahead)
  {
    hide HasPlain, Harmless, Joins;
    HasPlainConcat(gap, mid);
    HasPlainConcat(gap + mid, rest);
    NoSplitIsHarmless(gap, kept || HasPlain(rest) || HasPlain(mid));
    NoSplitIsHarmless(mid, kept || HasPlain(rest));
    HarmlessConcat(written, gap, kept || HasPlain(rest) || HasPlain(mid));
    HarmlessConcat(written + gap, mid, kept || HasPlain(rest));
  }

  // ----- the terminal newline -----

  lemma {:induction false} StripStopsAtPlain(us: Units)
    ensures |StripUnits(us)| <= |us| && StripUnits(us) == us[..|StripUnits(us)|]
    ensures StripUnits(us) != [] ==> us[|StripUnits(us)| - 1].Plain?
    ensures !HasPlain(us[|StripUnits(us)|..])
  {
    if EndsNewline(us) {
      var k := |us| - 1;
      StripStopsAtPlain(us[..k]);
      var n := |StripUnits(us)|;
      assert us[n..] == us[..k][n..] + [us[k]];
      HasPlainConcat(us[..k][n..], [us[k]]);
    }
  }

  lemma StripHarmless(us: Units)
    ensures NoSplit(StripUnits(us)) <==> Harmless(us, false)
  {
    StripStopsAtPlain(us);
    var k := |StripUnits(us)|;
    var kept, gone := us[..k], us[k..];
    assert us == kept + gone;
    if NoSplit(kept) {
      NoSplitIsHarmless(kept, HasPlain(gone));
      forall i: nat | i + 1 < |gone| && SplitAt(gone, i) ensures !HasPlain(gone[i + 2..]) {
        assert gone == gone[..i + 2] + gone[i + 2..];
        HasPlainConcat(gone[..i + 2], gone[i + 2..]);
      }
      HarmlessBoth(kept, gone, false);
    } else {
      var i: nat :| i + 1 < k && SplitAt(kept, i);
      assert SplitAt(us, i);
      assert us[i + 2..][k - 1 - (i + 2)] == us[k - 1];
    }
  }

  lemma NoSplitConcat(a: Units, b: Units)
    ensures NoSplit(a + b) <==> NoSplit(a) && NoSplit(b) && Joins(a, b)
  {
    HarmlessConcat(a, b, true);
    HarmlessKept(a);
    HarmlessKept(b);
    HarmlessKept(a + b);
  }

  lemma KeptTerminal(before: string, spliced: Units)
    requires Terminal(before).Some?
    ensures NoSplit(ResultUnits(before, spliced)) && !EndsSplit(spliced) <==>
            && NoSplit(spliced)
            && (Terminal(before) == Some(Lf) ==>
                  !(|LastTwo(spliced)| == 2 && LastTwo(spliced)[0] == Cr && !LastTwo(spliced)[1].Plain?))
  {
    hide NoSplit, Terminal;
    var original := Terminal(before).value;
    OneUnit(original);
    if EndsNewline(spliced) {
      var k := |spliced| - 1;
      assert spliced == spliced[..k] + [spliced[k]];
      OneUnit(spliced[k]);
      NoSplitConcat(spliced[..k], [spliced[k]]);
      NoSplitConcat(spliced[..k], [original]);
    } else {
      NoSplitConcat(spliced, [original]);
    }
  }

  lemma OneUnit(u: Unit)
    ensures NoSplit([u])
  {
  }

  /** For every file and every replacement: the edit is plain exactly when nothing
      merges at the seams, which its inputs decide. */
  lemma EditIsPlainBySeams(before: string, target: string, insert: string)
    requires target != ""
    ensures NormalizeNewlines(target) != ""
    ensures NormalizeNewlines(PreserveTerminal(Render(Spliced(before, target, insert)), before)) ==
            PlainEdit(NormalizeNewlines(before), NormalizeNewlines(target), NormalizeNewlines(insert)) <==>
            NothingMerges(before, target, insert)
  {
    hide NormalizeNewlines, Render, PreserveTerminal, Terminal, PlainEdit, NoSplit, EndsSplit, Chars, Parse, Dominant;
    hide MatchStarts, EditedUnits, ResultUnits, SeamsHold, Ending, ValidStarts, Harmless;
    EditIsPlainExactly(before, target, insert);
    TwoPassAgrees(before);
    NormalizedHasNoCr(target);
    ParseNoSplit(before);
    var us, t, i := Parse(before), NormalizeNewlines(target), NormalizeNewlines(insert);
    StartsAreValid(Chars(us), t, 0);
    var starts, kept := MatchStarts(Chars(us), t, 0), Terminal(before).Some?;
    WalkSeesSplits(us, 0, starts, |t|, i, Dominant(us, Lf), [], kept);
    var spliced := Spliced(before, target, insert);
    assert [] + spliced == spliced && LastTwo([]) == [];
    NoSplitIsHarmless([], kept || HasPlain(spliced));
    if kept {
      HarmlessKept(spliced);
      KeptTerminal(before, spliced);
    } else {
      StripHarmless(spliced);
      StrippedResult(before, spliced);
    }
  }

  lemma StrippedResult(before: string, spliced: Units)
    requires Terminal(before) == None
    ensures ResultUnits(before, spliced) == StripUnits(spliced)
  {
  }

  // ----- insertions that are always safe -----

  predicate EndsPlain(us: Units) {
    us != [] && us[|us| - 1].Plain?
  }

  predicate PlainEnds(insert: string) {
    insert != "" && insert[0] != '\n' && insert[|insert| - 1] != '\n'
  }

  lemma TailEnds(us: Units, from: nat, last: Units)
    requires from <= |us| && NoSplit(us) && ((from == 0 && last == []) || EndsPlain(last))
    ensures Joins(last, us[from..])
    ensures us != [] && us[|us| - 1] == Lf ==>
              var end := LastTwo(last + us[from..]);
              !(|end| == 2 && end[0] == Cr && !end[1].Plain?)
  {
    if |us| >= 2 {
      SplitRefutes(us, |us| - 2);
    }
  }

  lemma PlainInsertion(insert: string, style: Style, last: Units, gap: Units)
    requires PlainEnds(insert) && (last == [] || EndsPlain(last))
    ensures var mid := Styled(insert, style);
            Joins(last, gap) && Joins(LastTwo(last + gap), mid) && EndsPlain(LastTwo(last + gap + mid))
  {
    var mid := Styled(insert, style);
    assert EndsPlain(mid) && mid[0].Plain?;
  }

  lemma {:induction false} PlainEndsHold(us: Units, from: nat, starts: seq<nat>, len: nat, insert: string,
                                         dominant: Style, last: Units, kept: bool)
    requires ValidStarts(from, starts, len, |us|) && NoSplit(us) && PlainEnds(insert)
    requires (from == 0 && last == []) || EndsPlain(last)
    ensures SeamsHold(us, from, starts, len, insert, dominant, last, kept)
    ensures us != [] && us[|us| - 1] == Lf ==>
              var end := Ending(us, from, starts, len, insert, dominant, last);
              !(|end| == 2 && end[0] == Cr && !end[1].Plain?)
    decreases |starts|
  {
    hide Dominant, HasPlain, NoSplit, Joins, LastTwo, PlainEnds, EndsPlain, Styled;
    if starts == [] {
      TailEnds(us, from, last);
    } else {
      var s := starts[0];
      var mid := Styled(insert, Dominant(us[s..s + len], dominant));
      PlainInsertion(insert, Dominant(us[s..s + len], dominant), last, us[from..s]);
      PlainEndsHold(us, s + len, starts[1..], len, insert, dominant, LastTwo(last + us[from..s] + mid), kept);
    }
  }

  lemma SplitRefutes(us: Units, i: nat)
    requires NoSplit(us) && i + 1 < |us|
    ensures !SplitAt(us, i)
  {
  }

  /** An insertion that begins and ends with an ordinary character merges nothing,
      in any file. */
  lemma PlainEndsArePlain(before: string, target: string, insert: string)
    requires target != "" && PlainEnds(NormalizeNewlines(insert))
    ensures NothingMerges(before, target, insert)
  {
    hide NormalizeNewlines, Terminal, Chars, Parse, Dominant, MatchStarts, SeamsHold, Ending, ValidStarts;
    TwoPassAgrees(before);
    NormalizedHasNoCr(target);
    ParseNoSplit(before);
    TerminalOfText(before);
    var us, t := Parse(before), NormalizeNewlines(target);
    StartsAreValid(Chars(us), t, 0);
    PlainEndsHold(us, 0, MatchStarts(Chars(us), t, 0), |t|, NormalizeNewlines(insert), Dominant(us, Lf), [],
                  Terminal(before).Some?);
  }
}
