/** Bounding the diff text an edit reports. */
module BoundDiff {
  import opened Prelude

  const MAX_DIFF_LINES: nat := 200
  const MAX_DIFF_CHARACTERS: nat := 32768

  // ----- lines -----

  /** The characters that end a line when text is split into lines. */
  predicate LineBreak(c: char) {
    c == '\n' || c == '\r' || c == '\U{0B}' || c == '\U{0C}' || c == '\U{1C}' || c == '\U{1D}' || c == '\U{1E}' ||
    c == '\U{85}' || c == '\U{2028}' || c == '\U{2029}'
  }

  /** A line ends between two adjacent characters; carriage return and line feed stay together. */
  predicate Boundary(c: char, d: char) {
    LineBreak(c) && !(c == '\r' && d == '\n')
  }

  /** The number of line boundaries inside a text. */
  function Boundaries(s: string): nat {
    if |s| <= 1 then 0 else (if Boundary(s[0], s[1]) then 1 else 0) + Boundaries(s[1..])
  }

  function LineCount(s: string): nat {
    if s == "" then 0 else 1 + Boundaries(s)
  }

  /** The length of the first line with its ending. */
  function FirstLine(s: string): (n: nat)
    requires s != ""
    ensures 1 <= n <= |s|
    ensures Boundaries(s[..n]) == 0
    ensures n < |s| ==> Boundary(s[n - 1], s[n])
  {
    if |s| == 1 then
      assert s[..1] == s;
      1
    else if Boundary(s[0], s[1]) then 1
    else
      var n := 1 + FirstLine(s[1..]);
      assert s[..n][1..] == s[1..][..n - 1];
      n
  }

  /** Lines with their endings. */
  function SplitLines(s: string): seq<string> {
    if s == "" then [] else [s[..FirstLine(s)]] + SplitLines(s[FirstLine(s)..])
  }

  lemma {:induction false} BoundariesConcat(a: string, b: string)
    requires a != "" && b != ""
    ensures Boundaries(a + b) ==
            Boundaries(a) + Boundaries(b) + if Boundary(a[|a| - 1], b[0]) then 1 else 0
  {
    if |a| == 1 {
      assert (a + b)[1..] == b;
    } else {
      BoundariesConcat(a[1..], b);
      assert (a + b)[1..] == a[1..] + b;
    }
  }

  /** Splitting off the first line. */
  lemma FirstLineOff(s: string)
    requires s != ""
    ensures var n := FirstLine(s);
            SplitLines(s) == [s[..n]] + SplitLines(s[n..]) && LineCount(s) == 1 + LineCount(s[n..])
  {
    hide SplitLines, Boundary;
    var n := FirstLine(s);
    UnfoldLines(s);
    assert s == s[..n] + s[n..];
    if n < |s| {
      BoundariesConcat(s[..n], s[n..]);
    } else {
      assert s[..n] == s;
    }
  }

  lemma UnfoldLines(s: string)
    requires s != ""
    ensures SplitLines(s) == [s[..FirstLine(s)]] + SplitLines(s[FirstLine(s)..])
  {
  }

  lemma {:induction false} LinesCount(s: string)
    ensures |SplitLines(s)| == LineCount(s) && Join(SplitLines(s)) == s
    decreases |s|
  {
    hide LineCount, FirstLine;
    if s == "" {
      NoLines(s);
    } else {
      var n := FirstLine(s);
      FirstLineOff(s);
      LinesCount(s[n..]);
      assert s == s[..n] + s[n..];
    }
  }

  lemma NoLines(s: string)
    requires s == ""
    ensures SplitLines(s) == [] && LineCount(s) == 0
  {
  }

  ghost predicate SingleLines(lines: seq<string>) {
    forall i :: 0 <= i < |lines| ==> lines[i] != "" && Boundaries(lines[i]) == 0
  }

  lemma {:induction false} SplitIntoSingleLines(s: string)
    ensures SingleLines(SplitLines(s))
    decreases |s|
  {
    if s != "" {
      SplitIntoSingleLines(s[FirstLine(s)..]);
    }
  }

  lemma {:induction false} JoinCount(lines: seq<string>)
    requires SingleLines(lines)
    ensures LineCount(Join(lines)) <= |lines| && (lines != [] ==> Join(lines) != "")
  {
    if lines != [] {
      JoinCount(lines[1..]);
      if lines[1..] != [] {
        BoundariesConcat(lines[0], Join(lines[1..]));
      } else {
        assert lines[0] + "" == lines[0];
      }
    }
  }

  lemma {:induction false} PartBoundaries(s: string, i: nat, j: nat)
    requires i <= j <= |s|
    ensures Boundaries(s[..i]) + Boundaries(s[j..]) <= Boundaries(s)
    ensures 0 < i < j < |s| && LineBreak(s[i - 1]) ==> Boundaries(s[..i]) + Boundaries(s[j..]) + 1 <= Boundaries(s)
  {
    var h, mid, t := s[..i], s[i..j], s[j..];
    assert s == h + (mid + t) && mid + t == s[i..];
    if h != "" && s[i..] != "" {
      BoundariesConcat(h, s[i..]);
    }
    if mid != "" && t != "" {
      BoundariesConcat(mid, t);
      if h != "" && LineBreak(s[i - 1]) && !Boundary(s[i - 1], s[i]) {
        BreakInside(mid, t);
      }
    }
    assert h == "" ==> s[i..] == s;
    assert s[i..] == "" ==> h == s;
    assert mid == "" ==> s[i..] == t;
    assert t == "" ==> s[i..] == mid;
  }

  /** A line feed at the start of the middle part ends a line before the rest. */
  lemma BreakInside(mid: string, t: string)
    requires mid != "" && t != "" && mid[0] == '\n'
    ensures Boundaries(mid) + (if Boundary(mid[|mid| - 1], t[0]) then 1 else 0) >= 1
  {
  }

  // ----- numbers in decimal -----

  function Decimal(n: nat): (s: string)
    ensures |s| == Digits(n) && forall i :: 0 <= i < |s| ==> !LineBreak(s[i])
  {
    if n < 10 then [Digit(n)] else Decimal(n / 10) + [Digit(n % 10)]
  }

  function Digit(d: nat): (c: char)
    requires d < 10
    ensures !LineBreak(c)
  {
    ['0', '1', '2', '3', '4', '5', '6', '7', '8', '9'][d]
  }

  /** Adding no more than its number of digits makes a number at most one digit longer. */
  lemma AtMostOneDigitMore(a: nat, b: nat)
    requires a <= b <= a + Digits(a)
    ensures Digits(a) <= Digits(b) <= Digits(a) + 1
  {
    DigitsGrow(a, b);
    DigitsGrow(b, 10 * a + 9);
    assert (10 * a + 9) / 10 == a;
  }

  // ----- the bounded diff -----

  const CLOSING: string := " characters omitted ...\n"

  function Opening(omittedLines: nat): string {
    "... diff truncated: " + Decimal(omittedLines) + " complete lines and "
  }

  function Marker(omittedLines: nat, omittedCharacters: nat): string {
    Opening(omittedLines) + Decimal(omittedCharacters) + CLOSING
  }

  /** The marker is one line. */
  lemma MarkerIsOneLine(omittedLines: nat, omittedCharacters: nat)
    ensures var m := Marker(omittedLines, omittedCharacters);
            m != "" && m[|m| - 1] == '\n' && m[0] == '.' && Boundaries(m) == 0
  {
    hide Decimal, Opening;
    var closing := CLOSING[..|CLOSING| - 1];
    var body := Opening(omittedLines) + Decimal(omittedCharacters) + closing;
    OpeningHasNoBreaks(omittedLines);
    assert forall i :: 0 <= i < |closing| ==> !LineBreak(closing[i]);
    assert forall i :: 0 <= i < |body| ==> !LineBreak(body[i]);
    NoBreaks(body);
    assert Marker(omittedLines, omittedCharacters) == body + "\n";
    assert body[0] == Opening(omittedLines)[0];
    BoundariesConcat(body, "\n");
  }

  /** Numbers up to `n` make the marker longer by at most the digits of `n` each. */
  lemma MarkerLength(omittedLines: nat, omittedCharacters: nat, n: nat)
    requires omittedLines <= n && omittedCharacters <= n
    ensures |Marker(omittedLines, omittedCharacters)| <= 100 + 2 * Digits(n)
  {
    hide Digits, Decimal;
    DigitsGrow(omittedLines, n);
    DigitsGrow(omittedCharacters, n);
  }

  lemma {:induction false} FewerLinesThanCharacters(s: string)
    ensures LineCount(s) <= |s|
  {
    if |s| > 1 {
      FewerLinesThanCharacters(s[1..]);
    }
  }

  lemma OpeningHasNoBreaks(omittedLines: nat)
    ensures var s := Opening(omittedLines); s != "" && s[0] == '.' && forall i :: 0 <= i < |s| ==> !LineBreak(s[i])
  {
    hide Decimal;
    var a, d, b := "... diff truncated: ", Decimal(omittedLines), " complete lines and ";
    assert forall i :: 0 <= i < |a| ==> !LineBreak(a[i]);
    assert forall i :: 0 <= i < |b| ==> !LineBreak(b[i]);
  }

  lemma {:induction false} NoBreaks(s: string)
    requires forall i :: 0 <= i < |s| ==> !LineBreak(s[i])
    ensures Boundaries(s) == 0
  {
    if |s| > 1 {
      NoBreaks(s[1..]);
    }
  }

  /** The part of the budget a marker of length `m` leaves for the head and for the tail. */
  function HeadBudget(m: nat): nat {
    Max(0, MAX_DIFF_CHARACTERS - m) / 2
  }

  function TailBudget(m: nat): nat {
    Max(0, MAX_DIFF_CHARACTERS - m) - HeadBudget(m)
  }

  function Head(source: string, m: nat): string {
    source[..Min(|source|, HeadBudget(m))]
  }

  function Tail(source: string, m: nat): string {
    source[|source| - Min(|source|, TailBudget(m))..]
  }

  function Retained(head: string, tail: string, m: nat): nat {
    |Head(head, m)| + |Tail(tail, m)|
  }

  /** A longer marker leaves less, by no more than it is longer. */
  lemma RetainedShrinks(head: string, tail: string, m: nat, n: nat)
    requires m <= n
    ensures Retained(head, tail, n) <= Retained(head, tail, m) <= Retained(head, tail, n) + (n - m)
  {
    var a, b := Max(0, MAX_DIFF_CHARACTERS - m), Max(0, MAX_DIFF_CHARACTERS - n);
    assert b <= a <= b + (n - m);
    assert HeadBudget(n) <= HeadBudget(m) && TailBudget(n) <= TailBudget(m);
  }

  /** The length of the marker stops changing: the third marker is as long as any later. */
  lemma MarkerSettles(size: nat, head: string, tail: string, c: nat, m1: nat, m2: nat, m3: nat, o2: nat, o3: nat, o4: nat)
    requires forall m: nat :: Retained(head, tail, m) <= size
    requires o2 == size - Retained(head, tail, m1)
    requires m2 == c + Digits(o2) && m1 <= m2 && m1 >= c + 1
    requires o3 == size - Retained(head, tail, m2) && m3 == c + Digits(o3)
    requires o4 == size - Retained(head, tail, m3)
    ensures c + Digits(o4) == m3
  {
    RetainedShrinks(head, tail, m1, m2);
    assert o2 <= o3 <= o2 + (m2 - m1);
    if m2 == m1 {
      assert o3 == o2;
    } else {
      AtMostOneDigitMore(o2, o3);
      RetainedShrinks(head, tail, m2, m3);
      AtMostOneDigitMore(o2, o4);
      DigitsGrow(o3, o4);
    }
  }

  lemma HeadThenMarker(head: string, marker: string)
    requires marker != "" && marker[0] == '.' && Boundaries(marker) == 0
    ensures Boundaries(head + marker) == Boundaries(head) + if head != "" && LineBreak(head[|head| - 1]) then 1 else 0
  {
    if head == "" {
      assert head + marker == marker;
    } else {
      BoundariesConcat(head, marker);
    }
  }

  lemma LinesThenTail(lines: string, tail: string)
    requires lines != "" && lines[|lines| - 1] == '\n'
    ensures LineCount(lines + tail) == 1 + Boundaries(lines) + Boundaries(tail) + if tail != "" then 1 else 0
  {
    if tail == "" {
      assert lines + tail == lines;
    } else {
      BoundariesConcat(lines, tail);
    }
  }

  /** The number of lines of a truncated text. */
  lemma TruncatedLines(head: string, marker: string, tail: string)
    requires marker != "" && marker[|marker| - 1] == '\n' && marker[0] == '.' && Boundaries(marker) == 0
    ensures LineCount(head + marker + tail) ==
            1 + Boundaries(head) + Boundaries(tail) + (if tail != "" then 1 else 0) +
            if head != "" && LineBreak(head[|head| - 1]) then 1 else 0
  {
    hide *;
    HeadThenMarker(head, marker);
    LinesThenTail(head + marker, tail);
  }

  /** How much of a diff may stay at its start: all of it, or its first 99 lines if it has
      two hundred or more. */
  function LeadingLines(diff: string): nat {
    var lines := SplitLines(diff);
    if |lines| < 200 then |diff| else |Join(lines[..99])|
  }

  /** And at its end: all of it, or its last hundred lines. */
  function ClosingLines(diff: string): nat {
    var lines := SplitLines(diff);
    if |lines| < 200 then |diff| else |Join(lines[|lines| - 100..])|
  }

  /** Where head and tail come from: the whole text, or its first and last lines. */
  ghost predicate Sources(diff: string, headSource: string, tailSource: string) {
    if |SplitLines(diff)| >= MAX_DIFF_LINES
    then
      && (exists middle: string :: middle != "" && diff == headSource + middle + tailSource)
      && |headSource| == LeadingLines(diff) && |tailSource| == ClosingLines(diff)
      && Boundaries(headSource) <= 98 && Boundaries(tailSource) <= 99
    else headSource == tailSource == diff && |diff| > MAX_DIFF_CHARACTERS
  }

  method ChooseSources(diff: string, lines: seq<string>) returns (headSource: string, tailSource: string, omittedLines: nat)
    requires lines == SplitLines(diff) && (|lines| > MAX_DIFF_LINES || |diff| > MAX_DIFF_CHARACTERS)
    ensures Sources(diff, headSource, tailSource)
    ensures omittedLines == if |lines| >= MAX_DIFF_LINES then |lines| - (MAX_DIFF_LINES - 1) else 0
  {
    hide SplitLines, Join, Boundaries;
    if |lines| >= MAX_DIFF_LINES {
      var headCount := (MAX_DIFF_LINES - 1) / 2;
      var tailCount := MAX_DIFF_LINES - headCount - 1;
      headSource := Join(lines[..headCount]);
      tailSource := Join(lines[|lines| - tailCount..]);
      omittedLines := |lines| - headCount - tailCount;
      FirstAndLast(diff, headCount, tailCount);
    } else {
      headSource, tailSource, omittedLines := diff, diff, 0;
    }
  }

  lemma FirstAndLast(diff: string, a: nat, b: nat)
    requires 0 < a && 0 < b && a + b < |SplitLines(diff)|
    ensures var lines := SplitLines(diff);
            var head, tail := Join(lines[..a]), Join(lines[|lines| - b..]);
            && (exists middle: string :: middle != "" && diff == head + middle + tail)
            && Boundaries(head) <= a - 1 && Boundaries(tail) <= b - 1
  {
    hide SplitLines, Join, Boundaries;
    var lines := SplitLines(diff);
    var x, y, z := lines[..a], lines[a..|lines| - b], lines[|lines| - b..];
    SplitIntoSingleLines(diff);
    LinesCount(diff);
    assert lines == (x + y) + z;
    JoinConcat(x + y, z);
    JoinConcat(x, y);
    JoinCount(x);
    JoinCount(y);
    JoinCount(z);
    assert diff == Join(x) + Join(y) + Join(z);
  }

  /** Head and tail are disjoint parts of the text, whatever the marker's length, and
      with any one-line marker between them there are at most two hundred lines. */
  lemma PartsOfDiff(diff: string, headSource: string, tailSource: string, m: nat)
    requires Sources(diff, headSource, tailSource)
    ensures Retained(headSource, tailSource, m) < |diff|
    ensures Head(headSource, m) <= diff && diff[|diff| - |Tail(tailSource, m)|..] == Tail(tailSource, m)
  {
    hide SplitLines, Boundaries;
    if |SplitLines(diff)| >= MAX_DIFF_LINES {
      var middle: string :| middle != "" && diff == headSource + middle + tailSource;
      assert diff[|diff| - |tailSource|..] == tailSource;
      var t := Tail(tailSource, m);
      assert diff[|diff| - |t|..] == tailSource[|tailSource| - |t|..];
    }
  }

  lemma LinesOfParts(diff: string, headSource: string, tailSource: string, m: nat)
    requires Sources(diff, headSource, tailSource)
    ensures var h, t := Head(headSource, m), Tail(tailSource, m);
            1 + Boundaries(h) + Boundaries(t) + (if t != "" then 1 else 0) +
            (if h != "" && LineBreak(h[|h| - 1]) then 1 else 0) <= MAX_DIFF_LINES
  {
    hide SplitLines, Boundaries;
    var h, t := Head(headSource, m), Tail(tailSource, m);
    if |SplitLines(diff)| >= MAX_DIFF_LINES {
      PrefixBoundaries(headSource, |h|);
      SuffixBoundaries(tailSource, |tailSource| - |t|);
    } else {
      LinesCount(diff);
      PartsOfDiff(diff, headSource, tailSource, m);
      PartBoundaries(diff, |h|, |diff| - |t|);
      NoTextNoBoundary(t);
    }
  }

  lemma NoTextNoBoundary(t: string)
    ensures t == "" ==> Boundaries(t) == 0
  {
  }

  lemma PrefixBoundaries(s: string, i: nat)
    requires i <= |s|
    ensures Boundaries(s[..i]) <= Boundaries(s)
  {
    PartBoundaries(s, i, |s|);
  }

  lemma SuffixBoundaries(s: string, j: nat)
    requires j <= |s|
    ensures Boundaries(s[j..]) <= Boundaries(s)
  {
    PartBoundaries(s, 0, j);
  }

  /** Head and tail share what the marker leaves of the 32768 characters, the tail having
      the odd one, and neither is shorter than its share unless its lines are. */
  predicate Fills(diff: string, head: nat, tail: nat, marker: nat) {
    var room := if marker < 32768 then 32768 - marker else 0;
    head == Min(LeadingLines(diff), room / 2) && tail == Min(ClosingLines(diff), room - room / 2)
  }

  lemma SharesFilled(diff: string, headSource: string, tailSource: string, m: nat)
    requires Sources(diff, headSource, tailSource)
    ensures Fills(diff, |Head(headSource, m)|, |Tail(tailSource, m)|, m)
  {
    hide SplitLines, Boundaries;
  }

  /** What a bounded diff is made of. */
  ghost predicate Truncation(diff: string, text: string, head: string, tail: string, omittedLines: nat) {
    && head <= diff && |head| + |tail| < |diff| && diff[|diff| - |tail|..] == tail
    && text == head + Marker(omittedLines, |diff| - |head| - |tail|) + tail
    && Fills(diff, |head|, |tail|, |Marker(omittedLines, |diff| - |head| - |tail|)|)
    && |text| <= Max(MAX_DIFF_CHARACTERS, |Marker(omittedLines, |diff| - |head| - |tail|)|)
  }

  /** Four rounds are enough for the marker to state what it leaves out. */
  method SettleMarker(diff: string, headSource: string, tailSource: string, omittedLines: nat) returns (marker: string)
    requires Sources(diff, headSource, tailSource)
    ensures Retained(headSource, tailSource, |marker|) <= |diff|
    ensures marker == Marker(omittedLines, |diff| - Retained(headSource, tailSource, |marker|))
  {
    hide SplitLines, Boundaries, Sources, Decimal, Opening, Retained, Digits, HeadBudget, TailBudget, Head, Tail;
    marker := "";
    ghost var lengths: seq<nat> := [0];
    ghost var c := |Opening(omittedLines)| + |CLOSING|;
    forall m: nat {
      PartsOfDiff(diff, headSource, tailSource, m);
    }
    for k := 0 to 4
      invariant |lengths| == k + 1 && lengths[0] == 0 && lengths[k] == |marker|
      invariant forall i :: 0 <= i < k ==> lengths[i + 1] == c + Digits(|diff| - Retained(headSource, tailSource, lengths[i]))
      invariant k > 0 ==> marker == Marker(omittedLines, |diff| - Retained(headSource, tailSource, lengths[k - 1]))
    {
      var omitted := |diff| - |Head(headSource, |marker|)| - |Tail(tailSource, |marker|)|;
      RetainedIs(headSource, tailSource, |marker|);
      marker := Marker(omittedLines, omitted);
      lengths := lengths + [|marker|];
    }
    LengthSettles(|diff|, headSource, tailSource, c, lengths);
  }

  /** Bound a diff. A diff within both limits is kept; otherwise a head and a tail of it
      are kept, and the marker between them states exactly how many characters are left
      out. The result never has more than two hundred lines, and no more characters than
      the limit unless the diff is so long that the numbers in the marker alone fill it. */
  method BoundDiff(diff: string) returns (text: string, truncated: bool, ghost head: string, ghost tail: string)
    ensures truncated <==> |SplitLines(diff)| > MAX_DIFF_LINES || |diff| > MAX_DIFF_CHARACTERS
    ensures !truncated ==> text == diff
    ensures truncated ==>
              var omittedLines := if |SplitLines(diff)| >= MAX_DIFF_LINES then |SplitLines(diff)| - (MAX_DIFF_LINES - 1) else 0;
              Truncation(diff, text, head, tail, omittedLines)
    ensures LineCount(text) <= MAX_DIFF_LINES
    ensures Digits(|diff|) <= 16_000 ==> |text| <= MAX_DIFF_CHARACTERS
  {
    hide SplitLines, Boundaries, Sources, Marker, Retained, Head, Tail, LineBreak, Digits, Fills, LeadingLines, ClosingLines;
    var lines := SplitLines(diff);
    LinesCount(diff);
    FewerLinesThanCharacters(diff);
    head, tail := "", "";
    if |lines| <= MAX_DIFF_LINES && |diff| <= MAX_DIFF_CHARACTERS {
      return diff, false, head, tail;
    }
    var headSource, tailSource, omittedLines := ChooseSources(diff, lines);
    var marker := SettleMarker(diff, headSource, tailSource, omittedLines);
    PartsOfDiff(diff, headSource, tailSource, |marker|);
    SharesFilled(diff, headSource, tailSource, |marker|);
    head, tail := Head(headSource, |marker|), Tail(tailSource, |marker|);
    RetainedIs(headSource, tailSource, |marker|);
    BudgetIsKept(headSource, tailSource, |marker|);
    text := Head(headSource, |marker|) + marker + Tail(tailSource, |marker|);
    MarkerIsOneLine(omittedLines, |diff| - |head| - |tail|);
    TruncatedLines(head, marker, tail);
    LinesOfParts(diff, headSource, tailSource, |marker|);
    MarkerLength(omittedLines, |diff| - |head| - |tail|, |diff|);
    truncated := true;
  }

  lemma RetainedIs(head: string, tail: string, m: nat)
    ensures Retained(head, tail, m) == |Head(head, m)| + |Tail(tail, m)|
  {
  }

  lemma BudgetIsKept(head: string, tail: string, m: nat)
    ensures Retained(head, tail, m) + m <= Max(MAX_DIFF_CHARACTERS, m)
  {
  }

  lemma LengthSettles(size: nat, head: string, tail: string, c: nat, lengths: seq<nat>)
    requires forall m: nat :: Retained(head, tail, m) < size
    requires |lengths| == 5 && lengths[0] == 0
    requires forall i :: 0 <= i < 4 ==> lengths[i + 1] == c + Digits(size - Retained(head, tail, lengths[i]))
    ensures lengths[3] == lengths[4]
  {
    hide Retained, Digits;
    var o1, o2, o3 := size - Retained(head, tail, 0), size - Retained(head, tail, lengths[1]), size - Retained(head, tail, lengths[2]);
    assert lengths[0 + 1] == c + Digits(o1);
    assert lengths[1 + 1] == c + Digits(o2);
    assert lengths[2 + 1] == c + Digits(o3);
    assert lengths[3 + 1] == c + Digits(size - Retained(head, tail, lengths[3]));
    RetainedShrinks(head, tail, 0, lengths[1]);
    DigitsGrow(o1, o2);
    MarkerSettles(size, head, tail, c, lengths[1], lengths[2], lengths[3], o2, o3, size - Retained(head, tail, lengths[3]));
  }
}
