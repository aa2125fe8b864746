/** Small building blocks shared by the models: optional values, the order in
    which the runtime sorts paths, and sorting by a total preorder. */
module Prelude {

  datatype Option<+T> = None | Some(value: T)

  datatype Result<+T, +E> = Ok(value: T) | Err(error: E)

  type byte = b: int | 0 <= b < 256

  type Bytes = seq<byte>

  function Min(a: int, b: int): int {
    if a <= b then a else b
  }

  function Max(a: int, b: int): int {
    if a <= b then b else a
  }

  /** `n` is the whole part of that many times the ratio, but at least one. */
  ghost predicate WholePart(n: int, times: int, ratio: real) {
    var x := (times as real) * ratio;
    n >= 1 && x < n as real + 1.0 && (n == 1 || n as real <= x)
  }

  ghost predicate NoDuplicates<T>(s: seq<T>) {
    forall i, j :: 0 <= i < j < |s| ==> s[i] != s[j]
  }

  function Elements<T>(s: seq<T>): set<T> {
    set x | x in s
  }

  lemma AppendDistinct<T>(s: seq<T>, x: T)
    requires NoDuplicates(s) && x !in s
    ensures NoDuplicates(s + [x])
    ensures forall y :: y in s + [x] <==> y in s || y == x
  {
  }

  lemma DropLastDistinct<T>(s: seq<T>)
    requires NoDuplicates(s) && s != []
    ensures NoDuplicates(s[..|s| - 1])
    ensures forall y :: y in s[..|s| - 1] <==> y in s && y != s[|s| - 1]
  {
  }

  lemma TakeNext<T>(s: seq<T>, i: nat)
    requires i < |s|
    ensures s[..i + 1] == s[..i] + [s[i]]
    ensures forall y :: y in s[..i + 1] <==> y in s[..i] || y == s[i]
    ensures NoDuplicates(s) ==> s[i] !in s[..i]
  {
  }

  lemma ConcatAssociates<T>(a: seq<T>, b: seq<T>, c: seq<T>)
    ensures a + (b + c) == (a + b) + c
  {
  }

  lemma {:induction false} DistinctCount<T>(s: seq<T>)
    requires NoDuplicates(s)
    ensures |Elements(s)| == |s|
  {
    if s == [] {
      assert Elements(s) == {};
    } else {
      var init, x := s[..|s| - 1], s[|s| - 1];
      DropLastDistinct(s);
      DistinctCount(init);
      assert Elements(s) == Elements(init) + {x} && x !in Elements(init);
    }
  }

  // ----- pieces of text -----

  function Join(pieces: seq<string>): string {
    if pieces == [] then "" else pieces[0] + Join(pieces[1..])
  }

  lemma {:induction false} JoinConcat(a: seq<string>, b: seq<string>)
    ensures Join(a + b) == Join(a) + Join(b)
  {
    if a == [] {
      assert a + b == b;
    } else {
      JoinConcat(a[1..], b);
      assert (a + b)[1..] == a[1..] + b;
      ConcatAssociates(a[0], Join(a[1..]), Join(b));
    }
  }

  lemma JoinAppend(pieces: seq<string>, piece: string)
    ensures Join(pieces + [piece]) == Join(pieces) + piece
  {
    JoinConcat(pieces, [piece]);
    assert [piece][1..] == [] && Join([piece]) == piece;
  }

  // ----- decimal digits -----

  /** The length of a number in decimal. */
  function Digits(n: nat): (d: nat)
    ensures 1 <= d <= n + 1
  {
    if n < 10 then 1 else 1 + Digits(n / 10)
  }

  lemma DigitsGrow(a: nat, b: nat)
    requires a <= b
    ensures Digits(a) <= Digits(b)
  {
    if b >= 10 && a >= 10 {
      DigitsGrow(a / 10, b / 10);
    }
  }

  // ----- code point order on strings -----

  predicate StringLeq(a: string, b: string) {
    if a == "" then true
    else if b == "" then false
    else a[0] < b[0] || (a[0] == b[0] && StringLeq(a[1..], b[1..]))
  }

  /** The two agree up to `i`, where `a` has the smaller character. */
  predicate SmallerAt(a: string, b: string, i: nat) {
    i < |a| && i < |b| && a[..i] == b[..i] && a[i] < b[i]
  }

  /** Lexicographically before: a proper prefix, or smaller at the first difference. */
  ghost predicate TextBefore(a: string, b: string) {
    a < b || exists i: nat :: SmallerAt(a, b, i)
  }

  lemma SmallerFurtherOn(a: string, b: string, i: nat)
    requires a != "" && b != "" && a[0] == b[0]
    ensures SmallerAt(a, b, i + 1) <==> SmallerAt(a[1..], b[1..], i)
    ensures !SmallerAt(a, b, 0)
  {
    if i < |a| - 1 && i < |b| - 1 {
      assert a[..i + 1] == [a[0]] + a[1..][..i] && b[..i + 1] == [b[0]] + b[1..][..i];
      assert a[..i + 1][1..] == a[1..][..i] && b[..i + 1][1..] == b[1..][..i];
    }
  }

  lemma SameStartBefore(a: string, b: string)
    requires a != "" && b != "" && a[0] == b[0]
    ensures TextBefore(a, b) <==> TextBefore(a[1..], b[1..])
  {
    hide SmallerAt;
    assert a == [a[0]] + a[1..] && b == [b[0]] + b[1..];
    if i: nat :| SmallerAt(a, b, i) {
      SmallerFurtherOn(a, b, if i == 0 then 0 else i - 1);
    }
    if i: nat :| SmallerAt(a[1..], b[1..], i) {
      SmallerFurtherOn(a, b, i);
    }
  }

  lemma OtherStartBefore(a: string, b: string)
    requires a != "" && b != "" && a[0] != b[0]
    ensures TextBefore(a, b) <==> a[0] < b[0]
  {
    if a[0] < b[0] {
      assert SmallerAt(a, b, 0);
    }
    forall i: nat | 0 < i <= |a| && i <= |b| ensures a[..i] != b[..i] {
      assert a[..i][0] == a[0] && b[..i][0] == b[0];
    }
  }

  /** The order on strings is the lexicographic one. */
  lemma {:induction false} StringLeqExactly(a: string, b: string)
    ensures StringLeq(a, b) <==> a == b || TextBefore(a, b)
  {
    if a != "" && b != "" {
      if a[0] == b[0] {
        StringLeqExactly(a[1..], b[1..]);
        SameStartBefore(a, b);
        assert a == [a[0]] + a[1..] && b == [b[0]] + b[1..];
      } else {
        OtherStartBefore(a, b);
      }
    }
  }

  lemma {:induction false} StringLeqTotal(a: string, b: string)
    ensures StringLeq(a, b) || StringLeq(b, a)
  {
    if a != "" && b != "" && a[0] == b[0] {
      StringLeqTotal(a[1..], b[1..]);
    }
  }

  lemma {:induction false} StringLeqTransitive(a: string, b: string, c: string)
    requires StringLeq(a, b) && StringLeq(b, c)
    ensures StringLeq(a, c)
  {
    if a != "" && a[0] == b[0] == c[0] {
      StringLeqTransitive(a[1..], b[1..], c[1..]);
    }
  }

  // ----- sorting -----

  ghost predicate TotalPreorder<T(!new)>(leq: (T, T) -> bool) {
    && (forall a, b :: leq(a, b) || leq(b, a))
    && (forall a, b, c :: leq(a, b) && leq(b, c) ==> leq(a, c))
  }

  ghost predicate SortedBy<T>(s: seq<T>, leq: (T, T) -> bool) {
    forall i, j :: 0 <= i < j < |s| ==> leq(s[i], s[j])
  }

  /** Insert into a sorted list, before the first element it does not exceed. */
  function Insert<T(!new)>(x: T, s: seq<T>, leq: (T, T) -> bool): (r: seq<T>)
    requires TotalPreorder(leq) && SortedBy(s, leq)
    ensures |r| == |s| + 1
    ensures SortedBy(r, leq)
    ensures forall y :: y in r <==> y == x || y in s
    ensures x !in s && NoDuplicates(s) ==> NoDuplicates(r)
  {
    if s == [] then [x]
    else if leq(x, s[0]) then [x] + s
    else
      var rest := Insert(x, s[1..], leq);
      assert forall y :: y in rest ==> leq(s[0], y) by {
        assert leq(s[0], x);
        assert forall y :: y in s[1..] ==> leq(s[0], y);
      }
      assert s == [s[0]] + s[1..];
      assert NoDuplicates(s) ==> s[0] !in s[1..];
      [s[0]] + rest
  }

  /** The library sort: the sorted list of the same elements. */
  function Sorted<T(!new)>(s: seq<T>, leq: (T, T) -> bool): (r: seq<T>)
    requires TotalPreorder(leq)
    ensures |r| == |s|
    ensures SortedBy(r, leq)
    ensures forall y :: y in r <==> y in s
    ensures NoDuplicates(s) ==> NoDuplicates(r)
  {
    if s == [] then []
    else
      assert s == [s[0]] + s[1..];
      assert NoDuplicates(s) ==> s[0] !in s[1..];
      Insert(s[0], Sorted(s[1..], leq), leq)
  }

  lemma {:induction false} InsertKeepsAll<T(!new)>(x: T, s: seq<T>, leq: (T, T) -> bool)
    requires TotalPreorder(leq) && SortedBy(s, leq)
    ensures multiset(Insert(x, s, leq)) == multiset(s) + multiset{x}
  {
    if s != [] && !leq(x, s[0]) {
      InsertKeepsAll(x, s[1..], leq);
      assert s == [s[0]] + s[1..];
    }
  }

  /** Sorting keeps every element as often as it occurs. */
  lemma {:induction false} SortedKeepsAll<T(!new)>(s: seq<T>, leq: (T, T) -> bool)
    requires TotalPreorder(leq)
    ensures multiset(Sorted(s, leq)) == multiset(s)
  {
    hide TotalPreorder, SortedBy, NoDuplicates, Insert;
    if s != [] {
      SortedKeepsAll(s[1..], leq);
      InsertKeepsAll(s[0], Sorted(s[1..], leq), leq);
      assert s == [s[0]] + s[1..];
    }
  }

  /** The elements of a finite set in some order, each once. */
  method SetToSeq<T(!new)>(s: set<T>) returns (r: seq<T>)
    ensures NoDuplicates(r)
    ensures forall x :: x in r <==> x in s
  {
    r := [];
    var rest := s;
    while rest != {}
      invariant rest <= s
      invariant NoDuplicates(r)
      invariant forall x :: x in r <==> x in s && x !in rest
      decreases rest
    {
      var x :| x in rest;
      r := r + [x];
      rest := rest - {x};
    }
  }
}
