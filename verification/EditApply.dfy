/** One exact replacement, and the terminal newline rule. */
module EditApply {
  import opened Prelude
  import opened EditText
  import opened EditEngine

  datatype EditError = MatchNotFound | AmbiguousMatch

  // ----- splicing on units -----

  /** Inserted text in one newline style. */
  function Styled(insert: string, style: Style): (us: Units)
    ensures |us| == |insert|
    ensures forall i :: 0 <= i < |us| ==> us[i] == if insert[i] == '\n' then style else Plain(insert[i])
  {
    seq(|insert|, i requires 0 <= i < |insert| => if insert[i] == '\n' then style else Plain(insert[i]))
  }

  /** The units of the spliced text: gaps are kept, each match is replaced in the
      style that dominates it, or the file's when it has no newline. */
  function EditedUnits(us: Units, from: nat, starts: seq<nat>, len: nat, insert: string, dominant: Style): Units
    requires ValidStarts(from, starts, len, |us|)
    decreases |starts|
  {
    if starts == [] then us[from..]
    else
      us[from..starts[0]] + Styled(insert, Dominant(us[starts[0]..starts[0] + len], dominant)) +
      EditedUnits(us, starts[0] + len, starts[1..], len, insert, dominant)
  }

  lemma CharsConcat(a: Units, b: Units)
    ensures Chars(a + b) == Chars(a) + Chars(b)
  {
  }

  lemma CharsSlice(us: Units, i: nat, j: nat)
    requires i <= j <= |us|
    ensures Chars(us[i..j]) == Chars(us)[i..j]
  {
  }

  lemma CharsStyled(insert: string, style: Style)
    ensures Chars(Styled(insert, style)) == insert
  {
  }

  /** On characters, splicing is replacing at the match positions. */
  lemma {:induction false} CharsEdited(us: Units, from: nat, starts: seq<nat>, len: nat, insert: string, dominant: Style)
    requires ValidStarts(from, starts, len, |us|)
    ensures Chars(EditedUnits(us, from, starts, len, insert, dominant)) ==
            ReplacedAt(Chars(us), from, starts, len, insert)
    decreases |starts|
  {
    hide Chars, Styled, Dominant;
    if starts == [] {
      CharsSlice(us, from, |us|);
      assert us[from..|us|] == us[from..] && Chars(us)[from..|us|] == Chars(us)[from..];
    } else {
      var s := starts[0];
      var mid := Styled(insert, Dominant(us[s..s + len], dominant));
      var rest := EditedUnits(us, s + len, starts[1..], len, insert, dominant);
      CharsEdited(us, s + len, starts[1..], len, insert, dominant);
      CharsSlice(us, from, s);
      CharsStyled(insert, Dominant(us[s..s + len], dominant));
      CharsConcat(us[from..s], mid);
      CharsConcat(us[from..s] + mid, rest);
    }
  }

  // ----- terminal newline -----

  function Terminal(text: string): Option<Style> {
    if |text| >= 2 && text[|text| - 2..] == "\r\n" then Some(CrLf)
    else if text != "" && text[|text| - 1] == '\r' then Some(Cr)
    else if text != "" && text[|text| - 1] == '\n' then Some(Lf)
    else None
  }

  /** `text.rstrip("\r\n")` */
  function StripNewlines(text: string): string {
    if text != "" && (text[|text| - 1] == '\r' || text[|text| - 1] == '\n')
    then StripNewlines(text[..|text| - 1])
    else text
  }

  function PreserveTerminal(after: string, before: string): string {
    match Terminal(before)
    case None => StripNewlines(after)
    case Some(original) =>
      match Terminal(after)
      case None => after + UnitText(original)
      case Some(current) => after[..|after| - |UnitText(current)|] + UnitText(original)
  }

  // ----- one edit -----

  function Spliced(before: string, target: string, insert: string): Units
    requires target != ""
  {
    var us := Parse(before);
    var t := NormalizeNewlines(target);
    TwoPassAgrees(before);
    NormalizedHasNoCr(target);
    StartsAreValid(Chars(us), t, 0);
    EditedUnits(us, 0, MatchStarts(Chars(us), t, 0), |t|, NormalizeNewlines(insert), Dominant(us, Lf))
  }

  /** What one edit returns: the number of matches must be the expected one, and the
      result is the spliced text with the terminal newline of the original. */
  function EditResult(before: string, target: string, insert: string, expected: nat): Result<(string, nat), EditError>
    requires target != ""
  {
    NormalizedHasNoCr(target);
    var count := CountMatches(NormalizeNewlines(before), NormalizeNewlines(target));
    if count == 0 then Err(MatchNotFound)
    else if count != expected then Err(AmbiguousMatch)
    else Ok((PreserveTerminal(Render(Spliced(before, target, insert)), before), count))
  }

  /** `insert.replace("\n", newline)` */
  function WithNewlines(insert: string, style: Style): string {
    if insert == "" then ""
    else (if insert[0] == '\n' then UnitText(style) else [insert[0]]) + WithNewlines(insert[1..], style)
  }

  lemma {:induction false} WithNewlinesRenders(insert: string, style: Style)
    ensures WithNewlines(insert, style) == Render(Styled(insert, style))
  {
    if insert != "" {
      WithNewlinesRenders(insert[1..], style);
      assert Styled(insert, style)[1..] == Styled(insert[1..], style);
    }
  }

  lemma RegionUnits(text: string, i: nat, j: nat)
    requires i <= j <= |Parse(text)|
    ensures Offset(Parse(text), i) <= Offset(Parse(text), j) <= |text|
    ensures text[Offset(Parse(text), i)..Offset(Parse(text), j)] == Render(Parse(text)[i..j])
    ensures Parse(Render(Parse(text)[i..j])) == Parse(text)[i..j]
  {
    hide Parse, Render, Offset, NoSplit;
    var us := Parse(text);
    RenderParse(text);
    RenderSlice(us, i, j);
    ParseNoSplit(text);
    NoSplitSlice(us, i, j);
    assert Valid(us[i..j]) by { assert Valid(us); }
    ParseRenderCount(us[i..j]);
  }

  /** Add the gap before match `k` and its replacement. */
  lemma SpliceNext(us: Units, from: nat, starts: seq<nat>, k: nat, len: nat, insert: string, dominant: Style,
                   done: string, whole: string)
    requires k < |starts| && ValidStarts(from, starts[k..], len, |us|)
    requires done + Render(EditedUnits(us, from, starts[k..], len, insert, dominant)) == whole
    ensures from <= starts[k] && starts[k] + len <= |us|
    ensures ValidStarts(starts[k] + len, starts[k + 1..], len, |us|)
    ensures var region := us[starts[k]..starts[k] + len];
            done + Render(us[from..starts[k]]) + WithNewlines(insert, Dominant(region, dominant)) +
            Render(EditedUnits(us, starts[k] + len, starts[k + 1..], len, insert, dominant)) == whole
  {
    hide Render, Styled, Dominant, WithNewlines;
    assert starts[k..][0] == starts[k] && starts[k..][1..] == starts[k + 1..];
    var gap := us[from..starts[k]];
    var mid := Styled(insert, Dominant(us[starts[k]..starts[k] + len], dominant));
    var rest := EditedUnits(us, starts[k] + len, starts[k + 1..], len, insert, dominant);
    WithNewlinesRenders(insert, Dominant(us[starts[k]..starts[k] + len], dominant));
    RenderConcat(gap, mid);
    RenderConcat(gap + mid, rest);
    ConcatAssociates(done, Render(gap) + Render(mid), Render(rest));
    ConcatAssociates(done, Render(gap), Render(mid));
  }

  method ApplyOneEdit(before: string, target: string, insert: string, expected: nat)
    returns (r: Result<(string, nat), EditError>)
    requires target != ""
    ensures r == EditResult(before, target, insert, expected)
  {
    hide *;
    NormalizedHasNoCr(target);
    TwoPassAgrees(before);
    ghost var us := Parse(before);
    var normalized, boundaries := NormalizeWithBoundaries(before);
    var normalizedTarget := NormalizeNewlines(target);
    var matches := FindNonOverlapping(normalized, normalizedTarget);
    var len := |normalizedTarget|;
    MatchFacts(before, target, insert, matches);
    if |matches| == 0 {
      EditOutcome(before, target, insert, expected);
      return Err(MatchNotFound);
    }
    if |matches| != expected {
      EditOutcome(before, target, insert, expected);
      return Err(AmbiguousMatch);
    }
    var dominant := DominantNewline(before, Lf);
    var replacementText := NormalizeNewlines(insert);
    var pieces: seq<string> := [];
    var previousEnd: nat := 0;
    ghost var from: nat := 0;
    ghost var whole := Render(Spliced(before, target, insert));
    StartPieces(before, boundaries, matches, len);
    for k := 0 to |matches|
      invariant from <= |us| && BoundaryTable(us, boundaries)
      invariant previousEnd == Offset(us, from) && previousEnd <= |before|
      invariant ValidStarts(from, matches[k..], len, |us|)
      invariant Join(pieces) + Render(EditedUnits(us, from, matches[k..], len, replacementText, dominant)) == whole
    {
      SpliceNext(us, from, matches, k, len, replacementText, dominant, Join(pieces), whole);
      RegionUnits(before, from, matches[k]);
      RegionUnits(before, matches[k], matches[k] + len);
      TableEntry(us, boundaries, matches[k]);
      TableEntry(us, boundaries, matches[k] + len);
      var start := boundaries[matches[k]];
      var end := boundaries[matches[k] + len];
      var matched := before[start..end];
      var style := DominantNewline(matched, dominant);
      var replacement := WithNewlines(replacementText, style);
      JoinAppend(pieces, before[previousEnd..start]);
      JoinAppend(pieces + [before[previousEnd..start]], replacement);
      pieces := pieces + [before[previousEnd..start]] + [replacement];
      previousEnd := end;
      from := matches[k] + len;
    }
    JoinAppend(pieces, before[previousEnd..]);
    pieces := pieces + [before[previousEnd..]];
    LastPiece(before, from, matches, len, replacementText, dominant);
    EditOutcome(before, target, insert, expected);
    return Ok((PreserveTerminal(Join(pieces), before), |matches|));
  }

  lemma TableEntry(us: Units, boundaries: seq<nat>, i: nat)
    requires BoundaryTable(us, boundaries) && i <= |us|
    ensures i < |boundaries| && boundaries[i] == Offset(us, i)
  {
  }

  lemma StartPieces(before: string, boundaries: seq<nat>, matches: seq<nat>, len: nat)
    ensures matches[0..] == matches && Offset(Parse(before), 0) == 0 && Join([]) == ""
    ensures forall s: string :: "" + s == s
  {
    OffsetEnds(Parse(before));
  }

  lemma LastPiece(before: string, from: nat, matches: seq<nat>, len: nat, insert: string, dominant: Style)
    requires from <= |Parse(before)| && ValidStarts(from, matches[|matches|..], len, |Parse(before)|)
    ensures Offset(Parse(before), from) <= |before|
    ensures before[Offset(Parse(before), from)..] ==
            Render(EditedUnits(Parse(before), from, matches[|matches|..], len, insert, dominant))
  {
    hide Parse, Render, Offset;
    var us := Parse(before);
    RegionUnits(before, from, |us|);
    RenderParse(before);
    OffsetEnds(us);
    assert us[from..|us|] == us[from..];
    assert before[Offset(us, from)..|before|] == before[Offset(us, from)..];
  }

  lemma MatchFacts(before: string, target: string, insert: string, matches: seq<nat>)
    requires target != "" && NormalizeNewlines(target) != ""
    requires matches == MatchStarts(NormalizeNewlines(before), NormalizeNewlines(target), 0)
    ensures ValidStarts(0, matches, |NormalizeNewlines(target)|, |Parse(before)|)
    ensures |matches| == CountMatches(NormalizeNewlines(before), NormalizeNewlines(target))
    ensures Spliced(before, target, insert) ==
            EditedUnits(Parse(before), 0, matches, |NormalizeNewlines(target)|, NormalizeNewlines(insert), Dominant(Parse(before), Lf))
  {
    hide NormalizeNewlines, Parse, MatchStarts, CountMatches, EditedUnits, Dominant;
    var n := NormalizeNewlines(before);
    TwoPassAgrees(before);
    StartsAreValid(n, NormalizeNewlines(target), 0);
    MatchesReplaceAll(n, 0, NormalizeNewlines(target), "");
    assert n[0..] == n;
  }

  lemma EditOutcome(before: string, target: string, insert: string, expected: nat)
    requires target != "" && NormalizeNewlines(target) != ""
    ensures var count := CountMatches(NormalizeNewlines(before), NormalizeNewlines(target));
            EditResult(before, target, insert, expected) ==
            if count == 0 then Err(MatchNotFound)
            else if count != expected then Err(AmbiguousMatch)
            else Ok((PreserveTerminal(Render(Spliced(before, target, insert)), before), count))
  {
    hide PreserveTerminal, Render, Spliced, CountMatches, NormalizeNewlines;
  }
}
