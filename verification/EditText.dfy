/** Text as the edit tools see it: characters and newline units. A newline unit
    is one of the three styles a file may use; matching happens on the text in
    which every unit is a single line feed. */
module EditText {
  import opened Prelude

  datatype Unit = Plain(c: char) | Cr | Lf | CrLf

  type Style = u: Unit | !u.Plain? witness Lf

  type Units = seq<Unit>

  predicate ValidUnit(u: Unit) {
    u.Plain? ==> u.c != '\r' && u.c != '\n'
  }

  ghost predicate Valid(us: Units) {
    forall u :: u in us ==> ValidUnit(u)
  }

  function UnitText(u: Unit): string {
    match u
    case Plain(c) => [c]
    case Cr => "\r"
    case Lf => "\n"
    case CrLf => "\r\n"
  }

  function UnitChar(u: Unit): char {
    match u
    case Plain(c) => c
    case _ => '\n'
  }

  function Render(us: Units): string {
    if us == [] then "" else UnitText(us[0]) + Render(us[1..])
  }

  function Chars(us: Units): (n: string)
    ensures |n| == |us|
    ensures forall i :: 0 <= i < |us| ==> n[i] == UnitChar(us[i])
  {
    seq(|us|, i requires 0 <= i < |us| => UnitChar(us[i]))
  }

  /** The first newline-aware unit of a text. */
  function FirstUnit(s: string): Unit
    requires s != ""
  {
    if s[0] == '\r' then if |s| > 1 && s[1] == '\n' then CrLf else Cr
    else if s[0] == '\n' then Lf
    else Plain(s[0])
  }

  function Parse(s: string): (us: Units)
    ensures Valid(us)
  {
    if s == "" then []
    else
      var u := FirstUnit(s);
      [u] + Parse(s[|UnitText(u)|..])
  }

  lemma {:induction false} RenderParse(s: string)
    ensures Render(Parse(s)) == s
  {
    if s != "" {
      var u := FirstUnit(s);
      var rest := s[|UnitText(u)|..];
      RenderParse(rest);
      RenderHead(u, Parse(rest));
      assert UnitText(u) == s[..|UnitText(u)|];
    }
  }

  lemma RenderHead(u: Unit, us: Units)
    ensures Render([u] + us) == UnitText(u) + Render(us)
  {
    assert ([u] + us)[1..] == us;
  }

  // ----- where rendering forgets a boundary -----

  predicate SplitAt(us: Units, i: nat)
    requires i + 1 < |us|
  {
    us[i] == Cr && us[i + 1] == Lf
  }

  /** No carriage return unit is directly followed by a line feed unit. */
  predicate NoSplit(us: Units) {
    forall i: nat | i + 1 < |us| :: !SplitAt(us, i)
  }

  function Splits(us: Units): nat {
    if |us| < 2 then 0
    else (if SplitAt(us, 0) then 1 else 0) + Splits(us[1..])
  }

  lemma {:induction false} SplitsZero(us: Units)
    ensures Splits(us) == 0 <==> NoSplit(us)
  {
    if |us| >= 2 {
      SplitsZero(us[1..]);
      if NoSplit(us) {
        forall i: nat | i + 1 < |us[1..]| ensures !SplitAt(us[1..], i) {
          assert !SplitAt(us, i + 1);
        }
      } else {
        var i: nat :| i + 1 < |us| && SplitAt(us, i);
        if i > 0 {
          assert SplitAt(us[1..], i - 1);
        }
      }
    }
  }

  lemma NextChar(us: Units)
    requires Valid(us)
    ensures Render(us) == "" <==> us == []
    ensures us != [] ==> Render(us)[0] == UnitText(us[0])[0]
    ensures us != [] ==> (Render(us)[0] == '\n' <==> us[0] == Lf)
  {
    if us != [] {
      assert us[0] in us;
    }
  }

  lemma FirstOfRendered(u: Unit, s: string)
    requires ValidUnit(u) && !(u == Cr && s != "" && s[0] == '\n')
    ensures Parse(UnitText(u) + s) == [u] + Parse(s)
  {
    var text := UnitText(u) + s;
    assert FirstUnit(text) == u;
    assert text[|UnitText(u)|..] == s;
  }

  lemma MergedFirst(s: string)
    ensures Parse("\r" + ("\n" + s)) == [CrLf] + Parse(s)
  {
    var text := "\r" + ("\n" + s);
    assert FirstUnit(text) == CrLf;
    assert text[2..] == s;
  }

  /** Reading back a rendered text loses exactly one unit per split. */
  lemma {:induction false} ParseRenderCount(us: Units)
    requires Valid(us)
    ensures |Parse(Render(us))| + Splits(us) == |us|
    ensures NoSplit(us) ==> Parse(Render(us)) == us
  {
    hide Parse, NoSplit;
    if us == [] {
      assert Parse("") == [] by { ParseEmpty(); }
    } else {
      var u := us[0];
      assert u in us;
      var rest := us[1..];
      NextChar(rest);
      if u == Cr && rest != [] && rest[0] == Lf {
        ParseRenderCount(rest[1..]);
        MergedFirst(Render(rest[1..]));
        assert Splits(rest) == Splits(rest[1..]);
        SplitHere(us);
      } else {
        ParseRenderCount(rest);
        FirstOfRendered(u, Render(rest));
        assert Splits(us) == Splits(rest);
        NoSplitTail(us);
      }
    }
  }

  lemma ParseEmpty()
    ensures Parse("") == []
  {
  }

  lemma SplitHere(us: Units)
    requires |us| >= 2 && SplitAt(us, 0)
    ensures !NoSplit(us)
  {
  }

  lemma NoSplitTail(us: Units)
    requires us != []
    ensures NoSplit(us) ==> NoSplit(us[1..])
  {
    if NoSplit(us) {
      forall i: nat | i + 1 < |us[1..]| ensures !SplitAt(us[1..], i) {
        assert !SplitAt(us, i + 1);
      }
    }
  }

  lemma {:induction false} ParseNoSplit(s: string)
    ensures NoSplit(Parse(s))
  {
    RenderParse(s);
    ParseRenderCount(Parse(s));
    SplitsZero(Parse(s));
  }

  // ----- normalisation -----

  /** `text.replace("\r\n", "\n")` */
  function ReplaceCrLf(s: string): string {
    if |s| < 2 then s
    else if s[0] == '\r' && s[1] == '\n' then "\n" + ReplaceCrLf(s[2..])
    else [s[0]] + ReplaceCrLf(s[1..])
  }

  /** `text.replace("\r", "\n")` */
  function ReplaceCr(s: string): string {
    seq(|s|, i requires 0 <= i < |s| => if s[i] == '\r' then '\n' else s[i])
  }

  /** The two-pass normalisation of the source. */
  function NormalizeNewlines(s: string): string {
    ReplaceCr(ReplaceCrLf(s))
  }

  lemma ReplaceCrHead(c: char, s: string)
    ensures ReplaceCr([c] + s) == [if c == '\r' then '\n' else c] + ReplaceCr(s)
  {
  }

  lemma CharsHead(u: Unit, us: Units)
    ensures Chars([u] + us) == [UnitChar(u)] + Chars(us)
  {
  }

  /** Two replacement passes compute what reading units computes. */
  lemma {:induction false} TwoPassAgrees(s: string)
    ensures NormalizeNewlines(s) == Chars(Parse(s))
  {
    hide ReplaceCr, Chars;
    if |s| < 2 {
      SingleCharacter(s);
    } else {
      var u := FirstUnit(s);
      var rest := s[|UnitText(u)|..];
      TwoPassAgrees(rest);
      var c := if u == CrLf then '\n' else s[0];
      assert ReplaceCrLf(s) == [c] + ReplaceCrLf(rest);
      ReplaceCrHead(c, ReplaceCrLf(rest));
      CharsHead(u, Parse(rest));
    }
  }

  lemma SingleCharacter(s: string)
    requires |s| < 2
    ensures NormalizeNewlines(s) == Chars(Parse(s))
  {
    if s != "" {
      assert s[|UnitText(FirstUnit(s))|..] == "";
      assert Parse("") == [];
    }
  }

  /** A rendered unit sequence normalises to its characters exactly when it has no split. */
  lemma NormalizeRender(us: Units)
    requires Valid(us)
    ensures NormalizeNewlines(Render(us)) == Chars(us) <==> NoSplit(us)
    ensures |NormalizeNewlines(Render(us))| + Splits(us) == |us|
  {
    TwoPassAgrees(Render(us));
    ParseRenderCount(us);
    SplitsZero(us);
  }

  lemma NormalizedHasNoCr(s: string)
    ensures '\r' !in NormalizeNewlines(s)
    ensures s != "" ==> NormalizeNewlines(s) != ""
  {
    TwoPassAgrees(s);
    var us := Parse(s);
    forall i | 0 <= i < |us| ensures UnitChar(us[i]) != '\r' {
      assert us[i] in us;
    }
  }

  // ----- concatenation and offsets -----

  lemma {:induction false} RenderConcat(a: Units, b: Units)
    ensures Render(a + b) == Render(a) + Render(b)
  {
    hide UnitText;
    if a == [] {
      assert a + b == b;
    } else {
      RenderConcat(a[1..], b);
      assert (a + b)[1..] == a[1..] + b;
      ConcatAssociates(UnitText(a[0]), Render(a[1..]), Render(b));
    }
  }

  function Offset(us: Units, i: nat): nat
    requires i <= |us|
  {
    |Render(us[..i])|
  }

  lemma OffsetNext(us: Units, i: nat)
    requires i < |us|
    ensures Offset(us, i + 1) == Offset(us, i) + |UnitText(us[i])|
  {
    RenderConcat(us[..i], [us[i]]);
    assert us[..i + 1] == us[..i] + [us[i]];
    assert Render([us[i]]) == UnitText(us[i]) + Render([]);
  }

  lemma MiddleSlice<T>(a: seq<T>, b: seq<T>, c: seq<T>)
    ensures (a + b + c)[|a|..|a + b|] == b
  {
  }

  lemma RenderSlice(us: Units, i: nat, j: nat)
    requires i <= j <= |us|
    ensures Offset(us, i) <= Offset(us, j) <= |Render(us)|
    ensures Render(us)[Offset(us, i)..Offset(us, j)] == Render(us[i..j])
  {
    hide Render;
    RenderConcat(us[..j], us[j..]);
    assert us == us[..j] + us[j..];
    RenderConcat(us[..i], us[i..j]);
    assert us[..j] == us[..i] + us[i..j];
    MiddleSlice(Render(us[..i]), Render(us[i..j]), Render(us[j..]));
  }

  lemma NoSplitSlice(us: Units, i: nat, j: nat)
    requires i <= j <= |us| && NoSplit(us)
    ensures NoSplit(us[i..j])
  {
    forall k: nat | k + 1 < |us[i..j]| ensures !SplitAt(us[i..j], k) {
      assert !SplitAt(us, i + k);
    }
  }
}
