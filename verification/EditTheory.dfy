/** The edit engine against plain replace-all on newline-normalised text. */
module EditTheory {
  import opened Prelude
  import opened EditText
  import opened EditEngine
  import opened EditApply

  // ----- the plain edit -----

  predicate EndsWithLf(n: string) {
    n != "" && n[|n| - 1] == '\n'
  }

  function StripLf(n: string): string {
    if EndsWithLf(n) then StripLf(n[..|n| - 1]) else n
  }

  /** The terminal newline rule on normalised text. */
  function TerminalRule(n: string, had: bool): string {
    if !had then StripLf(n)
    else if EndsWithLf(n) then n
    else n + "\n"
  }

  /** One edit as a reader thinks of it: replace all, keep the final newline or its absence. */
  function PlainEdit(n: string, target: string, insert: string): string
    requires target != ""
  {
    TerminalRule(ReplaceAll(n, target, insert), EndsWithLf(n))
  }

  lemma SplicedChars(before: string, target: string, insert: string)
    requires target != ""
    ensures NormalizeNewlines(target) != ""
    ensures Chars(Spliced(before, target, insert)) ==
            ReplaceAll(NormalizeNewlines(before), NormalizeNewlines(target), NormalizeNewlines(insert))
  {
    hide NormalizeNewlines, Chars, EditedUnits, MatchStarts, ReplaceAll, ReplacedAt, Dominant, ValidStarts;
    NormalizedHasNoCr(target);
    TwoPassAgrees(before);
    var us, t, i := Parse(before), NormalizeNewlines(target), NormalizeNewlines(insert);
    var n := NormalizeNewlines(before);
    StartsAreValid(n, t, 0);
    CharsEdited(us, 0, MatchStarts(n, t, 0), |t|, i, Dominant(us, Lf));
    MatchesReplaceAll(n, 0, t, i);
    assert n[0..] == n;
  }

  // ----- the terminal newline of a rendered text -----

  predicate EndsNewline(us: Units) {
    us != [] && !us[|us| - 1].Plain?
  }

  predicate EndsSplit(us: Units) {
    |us| >= 2 && SplitAt(us, |us| - 2)
  }

  lemma RenderOne(u: Unit)
    ensures Render([u]) == UnitText(u)
  {
    assert Render([u]) == UnitText(u) + Render([]);
  }

  lemma RenderLast(us: Units)
    requires us != []
    ensures Render(us) == Render(us[..|us| - 1]) + UnitText(us[|us| - 1])
  {
    hide Render, UnitText;
    var init, u := us[..|us| - 1], us[|us| - 1];
    RenderConcat(init, [u]);
    RenderOne(u);
    assert us == init + [u];
  }

  lemma LastChar(us: Units)
    requires Valid(us)
    ensures us == [] <==> Render(us) == ""
    ensures us != [] ==> (Render(us)[|Render(us)| - 1] == '\r' <==> us[|us| - 1] == Cr)
    ensures us != [] ==> (Render(us)[|Render(us)| - 1] == '\n' <==> us[|us| - 1] == Lf || us[|us| - 1] == CrLf)
  {
    if us != [] {
      RenderLast(us);
      assert us[|us| - 1] in us;
    }
  }

  lemma TerminalOfRender(us: Units)
    requires Valid(us)
    ensures Terminal(Render(us)) ==
            if !EndsNewline(us) then None
            else if EndsSplit(us) then Some(CrLf)
            else Some(us[|us| - 1])
  {
    hide Render;
    LastChar(us);
    if us != [] {
      var k := |us| - 1;
      RenderLast(us);
      assert Valid(us[..k]);
      LastChar(us[..k]);
      assert us[k] in us;
      TwoCharEnding(Render(us[..k]), us[k]);
    }
  }

  lemma TwoCharEnding(s: string, u: Unit)
    requires ValidUnit(u)
    ensures var text := s + UnitText(u);
            Terminal(text) ==
            if u.Plain? then None
            else if u == Lf && s != "" && s[|s| - 1] == '\r' then Some(CrLf)
            else Some(u)
  {
    var text := s + UnitText(u);
    if u == CrLf {
      assert text[|text| - 2..] == "\r\n";
    } else {
      assert text[|text| - 1] == UnitText(u)[0];
      if s != "" {
        var tail := text[|text| - 2..];
        assert tail[0] == s[|s| - 1] && tail[1] == UnitText(u)[0];
        assert tail == "\r\n" <==> tail[0] == '\r' && tail[1] == '\n';
      }
    }
  }

  lemma NoEndSplit(us: Units)
    requires NoSplit(us)
    ensures !EndsSplit(us)
  {
  }

  lemma TerminalOfText(text: string)
    ensures Terminal(text) ==
            if EndsNewline(Parse(text)) then Some(Parse(text)[|Parse(text)| - 1]) else None
    ensures Terminal(text).Some? <==> EndsWithLf(NormalizeNewlines(text))
  {
    hide Parse, Render, Terminal, NormalizeNewlines;
    var us := Parse(text);
    RenderParse(text);
    TerminalOfRender(us);
    ParseNoSplit(text);
    NoEndSplit(us);
    TwoPassAgrees(text);
    if us != [] {
      assert us[|us| - 1] in us;
    }
  }

  function StripUnits(us: Units): Units {
    if EndsNewline(us) then StripUnits(us[..|us| - 1]) else us
  }

  /** Stripping takes a newline unit away whole. */
  lemma StripOne(s: string, u: Unit)
    requires !u.Plain?
    ensures StripNewlines(s + UnitText(u)) == StripNewlines(s)
  {
    if u == CrLf {
      assert (s + "\r\n")[..|s| + 1] == s + "\r";
      assert (s + "\r")[..|s|] == s;
    } else {
      assert (s + UnitText(u))[..|s|] == s;
    }
  }

  lemma {:induction false} StripRendered(us: Units)
    requires Valid(us)
    ensures StripNewlines(Render(us)) == Render(StripUnits(us))
    ensures StripLf(Chars(us)) == Chars(StripUnits(us))
    ensures Valid(StripUnits(us))
  {
    hide Render, Chars, UnitText;
    LastChar(us);
    if EndsNewline(us) {
      var k := |us| - 1;
      RenderLast(us);
      assert Valid(us[..k]);
      StripRendered(us[..k]);
      StripOne(Render(us[..k]), us[k]);
      assert Chars(us)[..k] == Chars(us[..k]) by { CharsSlice(us, 0, k); }
    } else if us != [] {
      assert us[|us| - 1] in us;
    }
  }

  // ----- exactly when an edit is the plain edit -----

  /** The units of the edited file. */
  function ResultUnits(before: string, spliced: Units): Units {
    match Terminal(before)
    case None => StripUnits(spliced)
    case Some(original) =>
      (if EndsNewline(spliced) then spliced[..|spliced| - 1] else spliced) + [original]
  }

  lemma {:induction false} EditedIsValid(us: Units, from: nat, starts: seq<nat>, len: nat, insert: string, dominant: Style)
    requires ValidStarts(from, starts, len, |us|) && Valid(us) && '\r' !in insert
    ensures Valid(EditedUnits(us, from, starts, len, insert, dominant))
    decreases |starts|
  {
    hide Dominant;
    if starts != [] {
      EditedIsValid(us, starts[0] + len, starts[1..], len, insert, dominant);
    }
  }

  lemma SplicedIsValid(before: string, target: string, insert: string)
    requires target != ""
    ensures Valid(Spliced(before, target, insert))
  {
    hide NormalizeNewlines, Chars, EditedUnits, MatchStarts, Dominant, ValidStarts, Valid;
    NormalizedHasNoCr(target);
    NormalizedHasNoCr(insert);
    TwoPassAgrees(before);
    var t := NormalizeNewlines(target);
    StartsAreValid(Chars(Parse(before)), t, 0);
    EditedIsValid(Parse(before), 0, MatchStarts(Chars(Parse(before)), t, 0), |t|, NormalizeNewlines(insert), Dominant(Parse(before), Lf));
  }

  /** The result as a string, unit by unit. */
  lemma ResultRenders(before: string, spliced: Units)
    requires Valid(spliced)
    ensures Valid(ResultUnits(before, spliced))
    ensures !(Terminal(before).Some? && EndsSplit(spliced)) ==>
              PreserveTerminal(Render(spliced), before) == Render(ResultUnits(before, spliced))
    ensures Chars(ResultUnits(before, spliced)) == TerminalRule(Chars(spliced), Terminal(before).Some?)
  {
    hide Render, Terminal, Chars, StripUnits, StripLf;
    match Terminal(before)
    case None => StripRendered(spliced);
    case Some(original) =>
      TerminalOfRender(spliced);
      var k := |spliced| - 1;
      var kept := if EndsNewline(spliced) then spliced[..k] else spliced;
      RenderLast(kept + [original]);
      assert (kept + [original])[..|kept|] == kept;
      CharsConcat(kept, [original]);
      assert Chars([original]) == "\n";
      if EndsNewline(spliced) {
        RenderLast(spliced);
        var s, u := Render(spliced[..k]), UnitText(spliced[k]);
        assert (s + u)[..|s + u| - |u|] == s;
        CharsSlice(spliced, 0, k);
        assert spliced[k] in spliced;
        assert Chars(spliced) == Chars(spliced)[..k] + "\n";
      } else if spliced != [] {
        assert spliced[k] in spliced;
      }
  }

  /** If the spliced text ends in a split, the terminal rule takes two units away. */
  lemma EndSplitShortens(before: string, spliced: Units)
    requires Valid(spliced) && Terminal(before).Some? && EndsSplit(spliced)
    ensures |NormalizeNewlines(PreserveTerminal(Render(spliced), before))| < |spliced|
  {
    hide Terminal, NormalizeNewlines;
    TerminalOfRender(spliced);
    var k := |spliced| - 2;
    var rest := spliced[..k];
    var original := Terminal(before).value;
    RenderConcat(rest, spliced[k..]);
    assert rest + spliced[k..] == spliced;
    assert spliced[k..] == [Cr, Lf];
    assert Render([Cr, Lf]) == "\r" + ("\n" + Render([]));
    var s := Render(rest);
    assert (s + "\r\n")[..|s|] == s;
    RenderLast(rest + [original]);
    assert (rest + [original])[..k] == rest;
    assert Valid(rest + [original]);
    NormalizeRender(rest + [original]);
  }

  /** For every file and every replacement, whatever styles are mixed: normalising
      the edited file gives the plain edit of the normalised file exactly when no
      carriage return ends up directly before a line feed in the result. */
  lemma EditIsPlainExactly(before: string, target: string, insert: string)
    requires target != ""
    ensures NormalizeNewlines(target) != ""
    ensures var spliced := Spliced(before, target, insert);
            NormalizeNewlines(PreserveTerminal(Render(spliced), before)) ==
            PlainEdit(NormalizeNewlines(before), NormalizeNewlines(target), NormalizeNewlines(insert)) <==>
            NoSplit(ResultUnits(before, spliced)) && !(Terminal(before).Some? && EndsSplit(spliced))
  {
    hide NormalizeNewlines, Spliced, Render, PreserveTerminal, Terminal, ReplaceAll, ResultUnits, NoSplit, EndsSplit, EndsWithLf, Chars;
    var spliced := Spliced(before, target, insert);
    SplicedChars(before, target, insert);
    SplicedIsValid(before, target, insert);
    TerminalOfText(before);
    ResultRenders(before, spliced);
    if Terminal(before).Some? && EndsSplit(spliced) {
      EndSplitShortens(before, spliced);
      TerminalRuleKeeps(Chars(spliced));
    } else {
      NormalizeRender(ResultUnits(before, spliced));
    }
  }

  lemma TerminalRuleKeeps(n: string)
    ensures |TerminalRule(n, true)| >= |n|
  {
  }

  // ----- files with one newline style -----

  /** The style a file is edited in. */
  function StyleOf(text: string): Style {
    Dominant(Parse(text), Lf)
  }

  ghost predicate SingleStyle(text: string) {
    Uniform(Parse(text), StyleOf(text))
  }

  lemma UniformNoSplit(us: Units, style: Style)
    requires Uniform(us, style)
    ensures NoSplit(us) && !EndsSplit(us)
  {
    forall i: nat | i + 1 < |us| ensures !SplitAt(us, i) {
      assert us[i] in us && us[i + 1] in us;
    }
  }

  lemma UniformSlice(us: Units, i: nat, j: nat, style: Style)
    requires i <= j <= |us| && Uniform(us, style)
    ensures Uniform(us[i..j], style)
  {
  }

  lemma UniformConcat(a: Units, b: Units, style: Style)
    requires Uniform(a, style) && Uniform(b, style)
    ensures Uniform(a + b, style)
  {
  }

  lemma UniformStyled(insert: string, style: Style)
    ensures Uniform(Styled(insert, style), style)
  {
  }

  /** Every replacement takes the one style of the file. */
  lemma {:induction false} EditedIsUniform(us: Units, from: nat, starts: seq<nat>, len: nat, insert: string, style: Style)
    requires ValidStarts(from, starts, len, |us|) && Uniform(us, style)
    ensures Uniform(EditedUnits(us, from, starts, len, insert, style), style)
    decreases |starts|
  {
    hide Uniform, Dominant, Styled;
    if starts == [] {
      UniformSlice(us, from, |us|, style);
      assert us[from..|us|] == us[from..];
    } else {
      var s := starts[0];
      UniformSlice(us, from, s, style);
      UniformSlice(us, s, s + len, style);
      UniformDominant(us[s..s + len], style, style);
      UniformStyled(insert, style);
      EditedIsUniform(us, s + len, starts[1..], len, insert, style);
      UniformConcat(us[from..s], Styled(insert, style), style);
      UniformConcat(us[from..s] + Styled(insert, style), EditedUnits(us, s + len, starts[1..], len, insert, style), style);
    }
  }

  lemma SplicedIsUniform(before: string, target: string, insert: string)
    requires target != "" && SingleStyle(before)
    ensures Uniform(Spliced(before, target, insert), StyleOf(before))
  {
    hide NormalizeNewlines, Chars, EditedUnits, MatchStarts, Dominant, ValidStarts, Uniform;
    NormalizedHasNoCr(target);
    TwoPassAgrees(before);
    var t := NormalizeNewlines(target);
    StartsAreValid(Chars(Parse(before)), t, 0);
    EditedIsUniform(Parse(before), 0, MatchStarts(Chars(Parse(before)), t, 0), |t|, NormalizeNewlines(insert), StyleOf(before));
  }

  lemma {:induction false} StripIsPrefix(us: Units)
    ensures |StripUnits(us)| <= |us| && StripUnits(us) == us[..|StripUnits(us)|]
  {
    if EndsNewline(us) {
      StripIsPrefix(us[..|us| - 1]);
    }
  }

  lemma TerminalIsStyle(text: string, style: Style)
    requires Uniform(Parse(text), style) && Terminal(text).Some?
    ensures Terminal(text) == Some(style)
  {
    hide Parse, Terminal;
    TerminalOfText(text);
    assert Parse(text)[|Parse(text)| - 1] in Parse(text);
  }

  lemma ResultIsUniform(before: string, spliced: Units, style: Style)
    requires Uniform(Parse(before), style) && Uniform(spliced, style)
    ensures Uniform(ResultUnits(before, spliced), style)
  {
    hide Parse, Terminal, StripUnits;
    match Terminal(before)
    case None => StripIsPrefix(spliced);
    case Some(_) => TerminalIsStyle(before, style);
  }

  lemma StyleKept(text: string, style: Style)
    requires Uniform(Parse(text), style)
    ensures SingleStyle(text)
    ensures StyleOf(text) == if Newlines(Parse(text)) == 0 then Lf else style
  {
    var us := Parse(text);
    UniformDominant(us, style, Lf);
    if Newlines(us) == 0 {
      NoNewlinesUniform(us, Lf);
    }
  }

  lemma {:induction false} NoNewlinesUniform(us: Units, style: Style)
    requires Newlines(us) == 0
    ensures Uniform(us, style)
  {
    if us != [] {
      NoNewlinesUniform(us[..|us| - 1], style);
      assert us == us[..|us| - 1] + [us[|us| - 1]];
    }
  }

  /** On a file with one newline style an edit is the plain edit: the result keeps
      the style and the terminal newline and normalises to plain replace-all. */
  lemma SingleStyleEdit(before: string, target: string, insert: string)
    requires target != "" && SingleStyle(before)
    ensures NormalizeNewlines(target) != ""
    ensures var after := PreserveTerminal(Render(Spliced(before, target, insert)), before);
            && NormalizeNewlines(after) ==
               PlainEdit(NormalizeNewlines(before), NormalizeNewlines(target), NormalizeNewlines(insert))
            && SingleStyle(after) && Uniform(Parse(after), StyleOf(before))
            && Terminal(after) == Terminal(before)
  {
    hide NormalizeNewlines, Spliced, Render, PreserveTerminal, Terminal, ResultUnits, NoSplit, EndsSplit, Parse, Uniform, PlainEdit, EndsWithLf, EndsNewline, Dominant;
    var style := StyleOf(before);
    var spliced := Spliced(before, target, insert);
    var units := ResultUnits(before, spliced);
    var after := PreserveTerminal(Render(spliced), before);
    SplicedIsUniform(before, target, insert);
    SplicedIsValid(before, target, insert);
    ResultIsUniform(before, spliced, style);
    UniformNoSplit(spliced, style);
    UniformNoSplit(units, style);
    EditIsPlainExactly(before, target, insert);
    ResultRenders(before, spliced);
    ParseRenderCount(units);
    StyleKept(after, style);
    TerminalOfText(after);
    TerminalOfText(before);
    PlainEditKeepsEnd(NormalizeNewlines(before), NormalizeNewlines(target), NormalizeNewlines(insert));
    if Terminal(before).Some? {
      TerminalIsStyle(before, style);
      TerminalIsStyle(after, style);
    }
  }

  lemma {:induction false} StripLfEnds(n: string)
    ensures !EndsWithLf(StripLf(n))
  {
    if EndsWithLf(n) {
      StripLfEnds(n[..|n| - 1]);
    }
  }

  lemma PlainEditKeepsEnd(n: string, target: string, insert: string)
    requires target != ""
    ensures EndsWithLf(PlainEdit(n, target, insert)) <==> EndsWithLf(n)
  {
    StripLfEnds(ReplaceAll(n, target, insert));
  }

  // ----- an edit that changes nothing -----

  lemma {:induction false} StartsMatch(text: string, needle: string, from: nat)
    requires needle != ""
    ensures forall s :: s in MatchStarts(text, needle, from) ==> MatchesAt(text, needle, s)
    decreases |text| - from
  {
    hide MatchesAt;
    NextStart(text, needle, from);
    var found := Find(text, needle, from);
    if found.Some? {
      StartsMatch(text, needle, found.value + |needle|);
    }
  }

  lemma ValidSlice(us: Units, i: nat, j: nat)
    requires i <= j <= |us| && Valid(us)
    ensures Valid(us[i..j])
  {
  }

  lemma RegionRestyled(region: Units, style: Style)
    requires Valid(region) && Uniform(region, style)
    ensures Styled(Chars(region), Dominant(region, style)) == region
  {
    UniformDominant(region, style, style);
    var again := Styled(Chars(region), style);
    forall i | 0 <= i < |region| ensures again[i] == region[i] {
      assert region[i] in region;
    }
  }

  lemma MatchedText(text: string, needle: string, i: nat)
    requires MatchesAt(text, needle, i)
    ensures i + |needle| <= |text| && text[i..i + |needle|] == needle
  {
  }

  lemma {:induction false} EditedUnchanged(us: Units, from: nat, starts: seq<nat>, target: string, style: Style)
    requires Valid(us) && Uniform(us, style) && ValidStarts(from, starts, |target|, |us|)
    requires forall s :: s in starts ==> MatchesAt(Chars(us), target, s)
    ensures EditedUnits(us, from, starts, |target|, target, style) == us[from..]
    decreases |starts|
  {
    hide Dominant, Styled, Chars, Uniform, Valid, MatchesAt;
    if starts != [] {
      var s, len := starts[0], |target|;
      var region := us[s..s + len];
      MatchedText(Chars(us), target, s);
      CharsSlice(us, s, s + len);
      ValidSlice(us, s, s + len);
      UniformSlice(us, s, s + len, style);
      RegionRestyled(region, style);
      EditedUnchanged(us, s + len, starts[1..], target, style);
      ThreeSlices(us, from, s, s + len);
    }
  }

  lemma ThreeSlices<T>(s: seq<T>, i: nat, j: nat, k: nat)
    requires i <= j <= k <= |s|
    ensures s[i..j] + s[j..k] + s[k..] == s[i..]
  {
  }

  lemma TerminalOfSelf(text: string)
    ensures PreserveTerminal(text, text) == text
  {
    if Terminal(text) == Some(CrLf) {
      assert text[..|text| - 2] + text[|text| - 2..] == text;
    } else if Terminal(text).Some? {
      assert text[..|text| - 1] + [text[|text| - 1]] == text;
    }
  }

  /** Replacing a text by itself returns a single-style file unchanged. */
  lemma EqualEditUnchanged(before: string, target: string, insert: string)
    requires target != "" && SingleStyle(before)
    requires NormalizeNewlines(target) == NormalizeNewlines(insert)
    ensures PreserveTerminal(Render(Spliced(before, target, insert)), before) == before
  {
    hide NormalizeNewlines, Render, Parse, Chars, EditedUnits, MatchStarts, Dominant, ValidStarts, PreserveTerminal, Uniform, Valid;
    NormalizedHasNoCr(target);
    TwoPassAgrees(before);
    var us, t := Parse(before), NormalizeNewlines(target);
    StartsAreValid(Chars(us), t, 0);
    StartsMatch(Chars(us), t, 0);
    EditedUnchanged(us, 0, MatchStarts(Chars(us), t, 0), t, StyleOf(before));
    assert us[0..] == us;
    RenderParse(before);
    TerminalOfSelf(before);
  }

  // ----- files without lone carriage returns, or without lone line feeds -----

  lemma {:induction false} CountedOccurs(us: Units, style: Style)
    requires Count(us, style) > 0
    ensures style in us
  {
    if us[|us| - 1] != style {
      CountedOccurs(us[..|us| - 1], style);
    }
  }

  lemma DominantAvoids(us: Units, fallback: Style, absent: Style)
    requires absent !in us && (Newlines(us) == 0 ==> fallback != absent)
    ensures Dominant(us, fallback) != absent
  {
    hide Dominant;
    if Newlines(us) > 0 {
      DominantOutranks(us, fallback, fallback);
      CountedOccurs(us, Dominant(us, fallback));
    } else {
      NoneIsFallback(us, fallback);
    }
  }

  lemma {:induction false} EditedAvoids(us: Units, from: nat, starts: seq<nat>, len: nat, insert: string, dominant: Style, absent: Style)
    requires ValidStarts(from, starts, len, |us|) && absent !in us && dominant != absent
    ensures absent !in EditedUnits(us, from, starts, len, insert, dominant)
    decreases |starts|
  {
    hide Dominant, Styled;
    if starts != [] {
      var s := starts[0];
      DominantAvoids(us[s..s + len], dominant, absent);
      StyledAvoids(insert, Dominant(us[s..s + len], dominant), absent);
      EditedAvoids(us, s + len, starts[1..], len, insert, dominant, absent);
    }
  }

  lemma StyledAvoids(insert: string, style: Style, absent: Style)
    requires style != absent
    ensures absent !in Styled(insert, style)
  {
  }

  lemma NoSplitWithout(us: Units, absent: Style)
    requires absent !in us && (absent == Cr || absent == Lf)
    ensures NoSplit(us) && !EndsSplit(us)
  {
    forall i: nat | i + 1 < |us| ensures !SplitAt(us, i) {
      assert us[i] in us && us[i + 1] in us;
    }
  }

  lemma ResultAvoids(before: string, spliced: Units, absent: Style)
    requires absent !in Parse(before) && absent !in spliced
    ensures absent !in ResultUnits(before, spliced)
  {
    hide Parse, Terminal, StripUnits;
    match Terminal(before)
    case None => StripIsPrefix(spliced);
    case Some(_) =>
      TerminalOfText(before);
      assert Parse(before)[|Parse(before)| - 1] in Parse(before);
  }

  lemma SplicedAvoids(before: string, target: string, insert: string, absent: Style)
    requires target != "" && absent !in Parse(before)
    requires Newlines(Parse(before)) == 0 ==> absent != Lf
    ensures absent !in Spliced(before, target, insert)
  {
    hide NormalizeNewlines, Chars, EditedUnits, MatchStarts, Dominant, ValidStarts, Parse;
    NormalizedHasNoCr(target);
    TwoPassAgrees(before);
    var us, t := Parse(before), NormalizeNewlines(target);
    StartsAreValid(Chars(us), t, 0);
    DominantAvoids(us, Lf, absent);
    EditedAvoids(us, 0, MatchStarts(Chars(us), t, 0), |t|, NormalizeNewlines(insert), Dominant(us, Lf), absent);
  }

  /** A file that mixes styles is still edited plainly unless both lone carriage
      returns and lone line feeds occur in it. */
  lemma UnmixedEdit(before: string, target: string, insert: string, absent: Style)
    requires target != "" && (absent == Cr || absent == Lf) && absent !in Parse(before)
    ensures NormalizeNewlines(target) != ""
    ensures NormalizeNewlines(PreserveTerminal(Render(Spliced(before, target, insert)), before)) ==
            PlainEdit(NormalizeNewlines(before), NormalizeNewlines(target), NormalizeNewlines(insert))
  {
    hide NormalizeNewlines, Spliced, Render, PreserveTerminal, Terminal, ResultUnits, NoSplit, EndsSplit, Parse, PlainEdit, Uniform;
    if Newlines(Parse(before)) == 0 {
      NoNewlinesUniform(Parse(before), Lf);
      StyleKept(before, Lf);
      SingleStyleEdit(before, target, insert);
    } else {
      var spliced := Spliced(before, target, insert);
      SplicedAvoids(before, target, insert, absent);
      ResultAvoids(before, spliced, absent);
      NoSplitWithout(spliced, absent);
      NoSplitWithout(ResultUnits(before, spliced), absent);
      EditIsPlainExactly(before, target, insert);
    }
  }

  const MIXED: string := "\rb\nc"

  lemma MixedUnits()
    ensures Parse(MIXED) == [Cr, Plain('b'), Lf, Plain('c')]
  {
    hide Parse;
    ParseEmpty();
    FirstOfRendered(Plain('c'), "");
    FirstOfRendered(Lf, "c");
    FirstOfRendered(Plain('b'), "\nc");
    FirstOfRendered(Cr, "b\nc");
    assert "c" == UnitText(Plain('c')) + "" && "\nc" == UnitText(Lf) + "c";
    assert "b\nc" == UnitText(Plain('b')) + "\nc" && MIXED == UnitText(Cr) + "b\nc";
  }

  lemma MixedNormal()
    ensures NormalizeNewlines(MIXED) == "\nb\nc"
    ensures NormalizeNewlines("b") == "b" && NormalizeNewlines("") == ""
  {
    MixedUnits();
    TwoPassAgrees(MIXED);
    TwoPassAgrees("b");
    assert "b"[1..] == "" && Parse("b") == [Plain('b')] + Parse("");
  }

  lemma MixedStarts()
    ensures MatchStarts("\nb\nc", "b", 0) == [1]
  {
    hide MatchesAt;
    var n := "\nb\nc";
    SingleMatch(n, 'b', 0);
    SingleMatch(n, 'b', 1);
    SingleMatch(n, 'b', 2);
    SingleMatch(n, 'b', 3);
    assert "b" == ['b'];
    NextStart(n, "b", 0);
    NextStart(n, "b", 2);
    assert Find(n, "b", 0) == Some(1);
    assert Find(n, "b", 2) == None;
  }

  lemma SingleMatch(text: string, c: char, i: nat)
    ensures MatchesAt(text, [c], i) <==> i < |text| && text[i] == c
  {
    if i < |text| {
      assert text[i..i + 1] == [text[i]];
    }
  }

  lemma MixedReplaced()
    ensures ReplaceAll("\nb\nc", "b", "") == "\n\nc"
    ensures CountMatches("\nb\nc", "b") == 1
  {
    hide ReplaceAll, CountMatches, MatchStarts;
    var n := "\nb\nc";
    MixedStarts();
    StartsAreValid(n, "b", 0);
    MatchesReplaceAll(n, 0, "b", "");
    assert n[0..] == n;
    assert [1][1..] == [];
    assert ReplacedAt(n, 0, [1], 1, "") == n[0..1] + "" + ReplacedAt(n, 2, [], 1, "");
  }

  lemma MixedSpliced()
    ensures Spliced(MIXED, "b", "") == [Cr, Lf, Plain('c')]
  {
    hide Parse, NormalizeNewlines, Dominant, MatchStarts, Chars;
    MixedUnits();
    MixedNormal();
    MixedStarts();
    var us := Parse(MIXED);
    TwoPassAgrees(MIXED);
    var d := Dominant(us, Lf);
    assert [1][1..] == [];
    assert EditedUnits(us, 0, [1], 1, "", d) == us[0..1] + Styled("", Dominant(us[1..2], d)) + us[2..];
  }

  /** In a file that mixes styles, deleting what stands between a carriage return
      and a line feed merges them: the edit succeeds, and is not the plain edit. */
  lemma MixedEditIsNotPlain()
    ensures EditResult(MIXED, "b", "", 1) == Ok(("\r\nc", 1))
    ensures NormalizeNewlines("\r\nc") != PlainEdit(NormalizeNewlines(MIXED), "b", "")
    ensures !SingleStyle(MIXED) && Cr in Parse(MIXED) && Lf in Parse(MIXED)
  {
    hide Parse, NormalizeNewlines, Dominant, CountMatches, ReplaceAll, Spliced, NoSplit, Uniform, PlainEdit, Render;
    MixedUnits();
    MixedNormal();
    MixedReplaced();
    MixedSpliced();
    MixedRendered();
    assert Terminal(MIXED) == None && StripNewlines("\r\nc") == "\r\nc";
    EditIsPlainExactly(MIXED, "b", "");
    assert ResultUnits(MIXED, [Cr, Lf, Plain('c')]) == [Cr, Lf, Plain('c')];
    assert !NoSplit([Cr, Lf, Plain('c')]) by { MixedSplits(); }
    if SingleStyle(MIXED) {
      SingleStyleEdit(MIXED, "b", "");
    }
  }

  lemma MixedSplits()
    ensures !NoSplit([Cr, Lf, Plain('c')])
  {
    assert SplitAt([Cr, Lf, Plain('c')], 0);
  }

  lemma MixedRendered()
    ensures Render([Cr, Lf, Plain('c')]) == "\r\nc"
  {
    var units := [Cr, Lf, Plain('c')];
    assert units[1..] == [Lf, Plain('c')] && units[1..][1..] == [Plain('c')];
    assert Render([Plain('c')]) == "c" + Render([]);
    assert Render([Lf, Plain('c')]) == "\n" + Render([Plain('c')]);
  }
}
