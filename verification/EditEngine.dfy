/** The exact replacement engine of tools/edit.py. Methods follow the loops of the
    source; each is tied to a function on newline units. */
module EditEngine {
  import opened Prelude
  import opened EditText

  // ----- boundary table -----

  /** The normalised text with, for every position in it, the original offset. */
  method NormalizeWithBoundaries(text: string) returns (normalized: string, boundaries: seq<nat>)
    ensures normalized == NormalizeNewlines(text)
    ensures |boundaries| == |normalized| + 1
    ensures boundaries[0] == 0 && boundaries[|normalized|] == |text|
    ensures forall i, j :: 0 <= i < j < |boundaries| ==> boundaries[i] < boundaries[j]
    ensures BoundaryTable(Parse(text), boundaries)
  {
    hide *;
    ghost var us := Parse(text);
    normalized, boundaries := "", [0];
    var index := 0;
    ScanStarts(text);
    while index < |text|
      invariant 0 <= index <= |text|
      invariant Scanned(text, us, index, normalized, boundaries)
      decreases |text| - index
    {
      ScanNext(text, us, index, normalized, boundaries);
      if text[index] == '\r' {
        if index + 1 < |text| && text[index + 1] == '\n' {
          index := index + 2;
        } else {
          index := index + 1;
        }
        normalized := normalized + ['\n'];
      } else {
        normalized := normalized + [text[index]];
        index := index + 1;
      }
      boundaries := boundaries + [index];
    }
    ScanEnds(text, us, index, normalized, boundaries);
  }

  /** Entry `i` is where the first `i` units of the original end. */
  ghost predicate BoundaryTable(us: Units, boundaries: seq<nat>) {
    |boundaries| == |us| + 1 && forall i :: 0 <= i < |boundaries| ==> boundaries[i] == Offset(us, i)
  }

  ghost predicate Scanned(text: string, us: Units, index: nat, normalized: string, boundaries: seq<nat>) {
    && index <= |text| && |normalized| <= |us| && |boundaries| == |normalized| + 1
    && Parse(text[index..]) == us[|normalized|..]
    && normalized == Chars(us[..|normalized|])
    && boundaries[|normalized|] == index
    && forall i :: 0 <= i < |boundaries| ==> boundaries[i] == Offset(us, i)
  }

  lemma ScanStarts(text: string)
    ensures Scanned(text, Parse(text), 0, "", [0])
  {
    var us := Parse(text);
    assert us[0..] == us && text[0..] == text;
    OffsetEnds(us);
  }

  lemma ScanNext(text: string, us: Units, index: nat, normalized: string, boundaries: seq<nat>)
    requires Scanned(text, us, index, normalized, boundaries) && index < |text|
    ensures var crlf := text[index] == '\r' && index + 1 < |text| && text[index + 1] == '\n';
            var next := if crlf then index + 2 else index + 1;
            var c := if text[index] == '\r' then '\n' else text[index];
            Scanned(text, us, next, normalized + [c], boundaries + [next])
  {
    hide Parse, Offset, Chars;
    var k := |normalized|;
    ParseStep(text, index, us, k);
    OffsetNext(us, k);
    assert us[..k + 1] == us[..k] + [us[k]];
    CharsAppend(us[..k], us[k]);
  }

  lemma ScanEnds(text: string, us: Units, index: nat, normalized: string, boundaries: seq<nat>)
    requires us == Parse(text) && Scanned(text, us, index, normalized, boundaries) && index == |text|
    ensures normalized == NormalizeNewlines(text)
    ensures |boundaries| == |normalized| + 1 && BoundaryTable(us, boundaries)
    ensures boundaries[0] == 0 && boundaries[|normalized|] == |text|
    ensures forall i, j :: 0 <= i < j < |boundaries| ==> boundaries[i] < boundaries[j]
  {
    hide NormalizeNewlines, Offset, Chars;
    assert text[index..] == "" && us[|normalized|..] == [];
    assert us[..|normalized|] == us;
    TwoPassAgrees(text);
    OffsetEnds(us);
    forall i, j | 0 <= i < j < |boundaries| ensures boundaries[i] < boundaries[j] {
      OffsetIncreases(us, i, j);
    }
  }

  lemma ParseStep(text: string, index: nat, us: Units, k: nat)
    requires index < |text| && k <= |us| && Parse(text[index..]) == us[k..]
    ensures k < |us| && us[k] == FirstUnit(text[index..])
    ensures index + |UnitText(us[k])| <= |text|
    ensures Parse(text[index + |UnitText(us[k])|..]) == us[k + 1..]
  {
    var s := text[index..];
    var u := FirstUnit(s);
    assert us[k..] == [u] + Parse(s[|UnitText(u)|..]);
    assert us[k] == us[k..][0];
    assert us[k + 1..] == us[k..][1..];
    assert s[|UnitText(u)|..] == text[index + |UnitText(u)|..];
  }

  lemma CharsAppend(us: Units, u: Unit)
    ensures Chars(us + [u]) == Chars(us) + [UnitChar(u)]
  {
  }

  lemma OffsetEnds(us: Units)
    ensures Offset(us, 0) == 0 && Offset(us, |us|) == |Render(us)|
  {
    assert us[..0] == [] && us[..|us|] == us;
  }

  lemma {:induction false} OffsetIncreases(us: Units, i: nat, j: nat)
    requires i < j <= |us|
    ensures Offset(us, i) < Offset(us, j)
    decreases j
  {
    OffsetNext(us, j - 1);
    if i < j - 1 {
      OffsetIncreases(us, i, j - 1);
    }
  }

  // ----- matching -----

  predicate MatchesAt(text: string, needle: string, i: nat) {
    i + |needle| <= |text| && text[i..i + |needle|] == needle
  }

  /** `text.find(needle, start)` */
  function Find(text: string, needle: string, start: nat): (r: Option<nat>)
    ensures r.Some? ==> start <= r.value && MatchesAt(text, needle, r.value)
    ensures r.Some? ==> forall i :: start <= i < r.value ==> !MatchesAt(text, needle, i)
    ensures r.None? ==> forall i :: start <= i ==> !MatchesAt(text, needle, i)
    decreases |text| - start
  {
    if start + |needle| > |text| then None
    else if MatchesAt(text, needle, start) then Some(start)
    else Find(text, needle, start + 1)
  }

  /** Leftmost non-overlapping matches from `start` on. */
  function MatchStarts(text: string, needle: string, start: nat): seq<nat>
    requires needle != ""
    decreases |text| - start
  {
    match Find(text, needle, start)
    case None => []
    case Some(found) => [found] + MatchStarts(text, needle, found + |needle|)
  }

  lemma NextStart(text: string, needle: string, start: nat)
    requires needle != ""
    ensures var found := Find(text, needle, start);
            MatchStarts(text, needle, start) ==
            if found.None? then [] else [found.value] + MatchStarts(text, needle, found.value + |needle|)
    ensures Find(text, needle, start).Some? ==> Find(text, needle, start).value + |needle| <= |text|
  {
  }

  lemma NextMatch(text: string, needle: string, start: nat, matches: seq<nat>)
    requires needle != ""
    ensures var found := Find(text, needle, start);
            && (found.None? ==> matches + MatchStarts(text, needle, start) == matches)
            && (found.Some? ==> start <= found.value && found.value + |needle| <= |text|)
            && (found.Some? ==> matches + MatchStarts(text, needle, start) ==
                                (matches + [found.value]) + MatchStarts(text, needle, found.value + |needle|))
  {
    hide *;
    NextStart(text, needle, start);
    var found := Find(text, needle, start);
    if found.Some? {
      ConcatAssociates(matches, [found.value], MatchStarts(text, needle, found.value + |needle|));
    }
  }

  method FindNonOverlapping(text: string, needle: string) returns (matches: seq<nat>)
    requires needle != ""
    ensures matches == MatchStarts(text, needle, 0)
  {
    hide *;
    matches := [];
    var start := 0;
    while true
      invariant start <= |text|
      invariant matches + MatchStarts(text, needle, start) == MatchStarts(text, needle, 0)
      decreases |text| - start
    {
      NextMatch(text, needle, start, matches);
      var found := Find(text, needle, start);
      if found.None? {
        return matches;
      }
      matches := matches + [found.value];
      start := found.value + |needle|;
    }
  }

  /** Plain replace-all: at each position replace a match, else keep the character. */
  function ReplaceAll(text: string, target: string, insert: string): string
    requires target != ""
    decreases |text|
  {
    if |text| < |target| then text
    else if text[..|target|] == target then insert + ReplaceAll(text[|target|..], target, insert)
    else [text[0]] + ReplaceAll(text[1..], target, insert)
  }

  /** How many replacements that makes. */
  function CountMatches(text: string, target: string): nat
    requires target != ""
    decreases |text|
  {
    if |text| < |target| then 0
    else if text[..|target|] == target then 1 + CountMatches(text[|target|..], target)
    else CountMatches(text[1..], target)
  }

  ghost predicate ValidStarts(from: nat, starts: seq<nat>, len: nat, size: nat)
    decreases |starts|
  {
    && from <= size
    && (starts != [] ==> from <= starts[0] && starts[0] + len <= size && ValidStarts(starts[0] + len, starts[1..], len, size))
  }

  lemma {:induction false} StartsAreValid(text: string, needle: string, from: nat)
    requires needle != "" && from <= |text|
    ensures ValidStarts(from, MatchStarts(text, needle, from), |needle|, |text|)
    decreases |text| - from
  {
    var found := Find(text, needle, from);
    if found.Some? {
      StartsAreValid(text, needle, found.value + |needle|);
    }
  }

  /** Replacing at the given places: what lies between is kept. */
  function ReplacedAt(text: string, from: nat, starts: seq<nat>, len: nat, insert: string): string
    requires ValidStarts(from, starts, len, |text|)
    decreases |starts|
  {
    if starts == [] then text[from..]
    else text[from..starts[0]] + insert + ReplacedAt(text, starts[0] + len, starts[1..], len, insert)
  }

  lemma {:induction false} SkipToMatch(text: string, from: nat, found: nat, target: string, insert: string)
    requires target != "" && from <= found <= |text|
    requires forall i :: from <= i < found ==> !MatchesAt(text, target, i)
    ensures ReplaceAll(text[from..], target, insert) == text[from..found] + ReplaceAll(text[found..], target, insert)
    ensures CountMatches(text[from..], target) == CountMatches(text[found..], target)
    decreases found - from
  {
    hide ReplaceAll, CountMatches;
    if from == found {
      assert text[from..found] == "";
    } else {
      SkipToMatch(text, from + 1, found, target, insert);
      var s := text[from..];
      assert s[1..] == text[from + 1..];
      assert text[from..found] == [s[0]] + text[from + 1..found];
      assert !MatchesAt(text, target, from);
      NoMatchHere(text, from, target, insert);
    }
  }

  lemma NoMatchHere(text: string, from: nat, target: string, insert: string)
    requires target != "" && from < |text| && !MatchesAt(text, target, from)
    ensures var s := text[from..];
            && ReplaceAll(s, target, insert) == [s[0]] + ReplaceAll(s[1..], target, insert)
            && CountMatches(s, target) == CountMatches(s[1..], target)
  {
    var s := text[from..];
    if |s| >= |target| {
      assert s[..|target|] == text[from..from + |target|];
    } else {
      ShortText(s, target, insert);
      ShortText(s[1..], target, insert);
    }
  }

  lemma ShortText(s: string, target: string, insert: string)
    requires target != "" && |s| < |target|
    ensures ReplaceAll(s, target, insert) == s && CountMatches(s, target) == 0
  {
  }

  /** The match list drives exactly plain replace-all. */
  lemma {:induction false} MatchesReplaceAll(text: string, from: nat, target: string, insert: string)
    requires target != "" && from <= |text|
    requires ValidStarts(from, MatchStarts(text, target, from), |target|, |text|)
    ensures ReplacedAt(text, from, MatchStarts(text, target, from), |target|, insert) == ReplaceAll(text[from..], target, insert)
    ensures |MatchStarts(text, target, from)| == CountMatches(text[from..], target)
    decreases |text| - from
  {
    hide MatchesAt, ReplaceAll, CountMatches;
    var found := Find(text, target, from);
    if found.None? {
      SkipToMatch(text, from, |text|, target, insert);
      assert text[|text|..] == "";
      ShortText("", target, insert);
      assert text[from..|text|] + "" == text[from..];
    } else {
      var k := found.value;
      SkipToMatch(text, from, k, target, insert);
      MatchesReplaceAll(text, k + |target|, target, insert);
      MatchHere(text, k, target, insert);
      ConcatAssociates(text[from..k], insert, ReplaceAll(text[k + |target|..], target, insert));
    }
  }

  lemma MatchHere(text: string, k: nat, target: string, insert: string)
    requires target != "" && MatchesAt(text, target, k)
    ensures ReplaceAll(text[k..], target, insert) == insert + ReplaceAll(text[k + |target|..], target, insert)
    ensures CountMatches(text[k..], target) == 1 + CountMatches(text[k + |target|..], target)
  {
    assert text[k..][..|target|] == text[k..k + |target|];
    assert text[k..][|target|..] == text[k + |target|..];
  }

  // ----- dominant newline style -----

  function Count(us: Units, style: Style): nat {
    if us == [] then 0
    else Count(us[..|us| - 1], style) + if us[|us| - 1] == style then 1 else 0
  }

  function Newlines(us: Units): nat {
    if us == [] then 0
    else Newlines(us[..|us| - 1]) + if us[|us| - 1].Plain? then 0 else 1
  }

  /** How many newlines come before the first one of a style. */
  function FirstSeen(us: Units, style: Style): Option<nat> {
    if us == [] then None
    else
      var init := us[..|us| - 1];
      if FirstSeen(init, style).Some? then FirstSeen(init, style)
      else if us[|us| - 1] == style then Some(Newlines(init))
      else None
  }

  lemma {:induction false} SeenIffCounted(us: Units, style: Style)
    ensures FirstSeen(us, style).Some? <==> Count(us, style) > 0
  {
    if us != [] {
      SeenIffCounted(us[..|us| - 1], style);
    }
  }

  /** `a` sorts before `b` by (most frequent, then first seen). */
  predicate Outranks(us: Units, a: Style, b: Style) {
    Count(us, a) > 0 &&
    (Count(us, b) == 0 || Count(us, a) > Count(us, b) ||
     (Count(us, a) == Count(us, b) &&
      FirstSeen(us, a).Some? && FirstSeen(us, b).Some? && FirstSeen(us, a).value <= FirstSeen(us, b).value))
  }

  /** The most frequent style, the earliest among equals; the fallback without newlines. */
  function Dominant(us: Units, fallback: Style): Style {
    if Newlines(us) == 0 then fallback
    else if Outranks(us, CrLf, Lf) && Outranks(us, CrLf, Cr) then CrLf
    else if Outranks(us, Lf, CrLf) && Outranks(us, Lf, Cr) then Lf
    else Cr
  }

  lemma {:induction false} NewlinesTotal(us: Units)
    ensures Newlines(us) == Count(us, CrLf) + Count(us, Lf) + Count(us, Cr)
  {
    if us != [] {
      NewlinesTotal(us[..|us| - 1]);
    }
  }

  lemma {:induction false} FirstSeenDiffer(us: Units, a: Style, b: Style)
    requires a != b && FirstSeen(us, a).Some? && FirstSeen(us, b).Some?
    ensures FirstSeen(us, a).value != FirstSeen(us, b).value
    ensures FirstSeen(us, a).value < Newlines(us)
  {
    var init := us[..|us| - 1];
    if FirstSeen(init, a).Some? && FirstSeen(init, b).Some? {
      FirstSeenDiffer(init, a, b);
    } else if FirstSeen(init, a).Some? {
      SeenBefore(init, a);
    } else if FirstSeen(init, b).Some? {
      SeenBefore(init, b);
    }
  }

  lemma {:induction false} SeenBefore(us: Units, a: Style)
    requires FirstSeen(us, a).Some?
    ensures FirstSeen(us, a).value < Newlines(us)
  {
    var init := us[..|us| - 1];
    if FirstSeen(init, a).Some? {
      SeenBefore(init, a);
    }
  }

  /** The dominant style occurs and outranks every other style. */
  lemma DominantOutranks(us: Units, fallback: Style, other: Style)
    requires Newlines(us) > 0
    ensures var s := Dominant(us, fallback); Count(us, s) > 0 && (other != s ==> Outranks(us, s, other))
  {
    NewlinesTotal(us);
    SeenIffCounted(us, CrLf);
    SeenIffCounted(us, Lf);
    SeenIffCounted(us, Cr);
    assert other == CrLf || other == Lf || other == Cr;
  }

  ghost predicate Uniform(us: Units, style: Style) {
    forall u :: u in us ==> u.Plain? || u == style
  }

  lemma {:induction false} UniformCounts(us: Units, style: Style, other: Style)
    requires Uniform(us, style)
    ensures other != style ==> Count(us, other) == 0
    ensures Count(us, style) == Newlines(us)
  {
    if us != [] {
      assert us[|us| - 1] in us;
      UniformCounts(us[..|us| - 1], style, other);
    }
  }

  lemma UniformDominant(us: Units, style: Style, fallback: Style)
    requires Uniform(us, style)
    ensures Dominant(us, fallback) == if Newlines(us) == 0 then fallback else style
  {
    UniformCounts(us, style, CrLf);
    UniformCounts(us, style, Lf);
    UniformCounts(us, style, Cr);
  }

  ghost predicate Tallied(us: Units, counts: map<Style, nat>, firstSeen: map<Style, nat>, order: nat) {
    && (forall s: Style :: s in counts && counts[s] == Count(us, s))
    && (forall s: Style :: FirstSeen(us, s) == if s in firstSeen then Some(firstSeen[s]) else None)
    && order == Newlines(us)
  }

  lemma TallyNext(us: Units, u: Unit, counts: map<Style, nat>, firstSeen: map<Style, nat>, order: nat)
    requires Tallied(us, counts, firstSeen, order)
    ensures u.Plain? ==> Tallied(us + [u], counts, firstSeen, order)
    ensures !u.Plain? ==> Tallied(us + [u], counts[u := counts[u] + 1],
                                  if u in firstSeen then firstSeen else firstSeen[u := order], order + 1)
  {
    assert (us + [u])[..|us|] == us;
  }

  lemma TallyNothing()
    ensures Tallied([], map[CrLf := 0, Lf := 0, Cr := 0], map[], 0)
  {
  }

  lemma TallyCovers(us: Units, counts: map<Style, nat>, firstSeen: map<Style, nat>, order: nat, style: Style)
    requires Tallied(us, counts, firstSeen, order)
    ensures style in counts
  {
  }

  lemma NothingLeft(text: string, index: nat, us: Units, k: nat)
    requires index == |text| && k <= |us| && Parse(text[index..]) == us[k..]
    ensures us[..k] == us
  {
    assert text[index..] == "";
    assert us[k..] == [];
  }

  /** Winning against both other styles is being dominant. */
  lemma WinnerIsDominant(us: Units, best: Style, fallback: Style)
    requires Count(us, best) > 0
    requires forall s: Style :: s != best ==> Outranks(us, best, s)
    ensures Dominant(us, fallback) == best
  {
    hide Count, FirstSeen, Newlines, Dominant;
    NewlinesTotal(us);
    assert best == CrLf || best == Lf || best == Cr;
    var s := Dominant(us, fallback);
    if s != best {
      DominantOutranks(us, fallback, best);
      assert Outranks(us, best, s) && Outranks(us, s, best);
      FirstSeenDiffer(us, s, best);
    }
  }

  lemma NoneIsFallback(us: Units, fallback: Style)
    requires Newlines(us) == 0
    ensures Dominant(us, fallback) == fallback
  {
  }

  lemma RankFromTally(us: Units, counts: map<Style, nat>, firstSeen: map<Style, nat>, order: nat, a: Style, b: Style)
    requires Tallied(us, counts, firstSeen, order)
    ensures a in counts && b in counts && counts[a] == Count(us, a)
    ensures counts[a] > 0 && counts[b] > 0 ==> a in firstSeen && b in firstSeen
    ensures counts[a] > 0 ==>
              (Outranks(us, a, b) <==>
               (counts[b] == 0 || counts[a] > counts[b] ||
                (counts[a] == counts[b] && firstSeen[a] <= firstSeen[b])))
  {
    SeenIffCounted(us, a);
    SeenIffCounted(us, b);
  }

  /** Minimum by (-count, first seen) over the styles that occur. */
  method PickDominant(ghost us: Units, counts: map<Style, nat>, firstSeen: map<Style, nat>, ghost order: nat, fallback: Style)
    returns (style: Style)
    requires Tallied(us, counts, firstSeen, order)
    ensures style == Dominant(us, fallback)
  {
    hide Tallied, FirstSeen, Count, Newlines, Dominant;
    var styles: seq<Style> := [CrLf, Lf, Cr];
    var best: Option<Style> := None;
    for k := 0 to 3
      invariant best.None? ==> forall i :: 0 <= i < k ==> Count(us, styles[i]) == 0
      invariant best.Some? ==> Count(us, best.value) > 0
      invariant best.Some? ==> best.value in styles[..k]
      invariant best.Some? ==> forall i :: 0 <= i < k ==> Outranks(us, best.value, styles[i])
    {
      var s := styles[k];
      RankFromTally(us, counts, firstSeen, order, s, s);
      if best.Some? {
        RankFromTally(us, counts, firstSeen, order, s, best.value);
        RankFromTally(us, counts, firstSeen, order, best.value, s);
      }
      if counts[s] > 0 {
        if best.None? || counts[s] > counts[best.value] ||
           (counts[s] == counts[best.value] && firstSeen[s] < firstSeen[best.value])
        {
          forall i | 0 <= i < k ensures Outranks(us, s, styles[i]) {
            if best.Some? {
              OutranksTransitive(us, s, best.value, styles[i]);
            }
          }
          best := Some(s);
        }
      }
    }
    match best
    case None =>
      assert styles[0] == CrLf && styles[1] == Lf && styles[2] == Cr;
      NewlinesTotal(us);
      NoneIsFallback(us, fallback);
      style := fallback;
    case Some(s) =>
      forall other: Style ensures Outranks(us, s, other) {
        assert styles[0] == CrLf && styles[1] == Lf && styles[2] == Cr;
        assert other == CrLf || other == Lf || other == Cr;
      }
      WinnerIsDominant(us, s, fallback);
      style := s;
  }

  lemma OutranksTransitive(us: Units, a: Style, b: Style, c: Style)
    requires Outranks(us, a, b) && Outranks(us, b, c)
    ensures Outranks(us, a, c)
  {
    SeenIffCounted(us, a);
    SeenIffCounted(us, b);
    SeenIffCounted(us, c);
  }

  method DominantNewline(text: string, fallback: Style) returns (style: Style)
    ensures style == Dominant(Parse(text), fallback)
  {
    hide Parse, Tallied, FirstSeen, Count, Newlines;
    ghost var us := Parse(text);
    ghost var k := 0;
    var counts: map<Style, nat> := map[CrLf := 0, Lf := 0, Cr := 0];
    var firstSeen: map<Style, nat> := map[];
    var index, order := 0, 0;
    TallyNothing();
    assert us[0..] == us && text[0..] == text && us[..0] == [];
    while index < |text|
      invariant index <= |text| && k <= |us|
      invariant Parse(text[index..]) == us[k..]
      invariant Tallied(us[..k], counts, firstSeen, order)
    {
      ParseStep(text, index, us, k);
      TakeNext(us, k);
      TallyNext(us[..k], us[k], counts, firstSeen, order);
      var found: Option<Style> := None;
      if text[index] == '\r' {
        if index + 1 < |text| && text[index + 1] == '\n' {
          found := Some(CrLf);
          index := index + 2;
        } else {
          found := Some(Cr);
          index := index + 1;
        }
      } else if text[index] == '\n' {
        found := Some(Lf);
        index := index + 1;
      } else {
        index := index + 1;
      }
      assert us[k] == match found case Some(s) => s case None => us[k];
      assert found.None? <==> us[k].Plain?;
      k := k + 1;
      if found.Some? {
        TallyCovers(us[..k - 1], counts, firstSeen, order, found.value);
        counts := counts[found.value := counts[found.value] + 1];
        if found.value !in firstSeen {
          firstSeen := firstSeen[found.value := order];
        }
        order := order + 1;
      }
    }
    NothingLeft(text, index, us, k);
    style := PickDominant(us, counts, firstSeen, order, fallback);
  }
}
