/** Keeping only the newest checkpoints and sessions of a workspace. */
module Retention {
  import opened Prelude

  /** One stored item, as far as retention looks at it. */
  datatype Item = Item(id: string, createdAt: string, bytes: nat)

  predicate Older(a: Item, b: Item) {
    if a.createdAt == b.createdAt then StringLeq(a.id, b.id) else StringLeq(a.createdAt, b.createdAt)
  }

  lemma {:induction false} StringLeqAntisymmetric(a: string, b: string)
    requires StringLeq(a, b) && StringLeq(b, a)
    ensures a == b
  {
    if a != "" && b != "" {
      StringLeqAntisymmetric(a[1..], b[1..]);
      assert a == [a[0]] + a[1..] && b == [b[0]] + b[1..];
    }
  }

  /** Older by date, and within one date by identifier. */
  lemma OlderExactly(a: Item, b: Item)
    ensures Older(a, b) <==>
            || TextBefore(a.createdAt, b.createdAt)
            || (a.createdAt == b.createdAt && (a.id == b.id || TextBefore(a.id, b.id)))
  {
    hide TextBefore;
    StringLeqExactly(a.createdAt, b.createdAt);
    StringLeqExactly(a.id, b.id);
    NotBeforeItself(a.createdAt);
  }

  lemma NotBeforeItself(a: string)
    ensures !TextBefore(a, a)
  {
  }

  /** Every item of the first list is older than every item of the second. */
  ghost predicate AllOlder(gone: seq<Item>, left: seq<Item>) {
    forall x, y :: x in gone && y in left ==>
      || TextBefore(x.createdAt, y.createdAt)
      || (x.createdAt == y.createdAt && (x.id == y.id || TextBefore(x.id, y.id)))
  }

  lemma OldestGoFirst(items: seq<Item>, n: nat)
    requires SortedBy(items, Older) && n <= |items|
    ensures AllOlder(items[..n], items[n..])
  {
    hide Older, TextBefore;
    forall x, y | x in items[..n] && y in items[n..]
      ensures TextBefore(x.createdAt, y.createdAt) ||
              (x.createdAt == y.createdAt && (x.id == y.id || TextBefore(x.id, y.id)))
    {
      OlderExactly(x, y);
    }
  }

  lemma OlderIsTotal()
    ensures TotalPreorder(Older)
  {
    forall a: Item, b: Item ensures Older(a, b) || Older(b, a) {
      StringLeqTotal(a.id, b.id);
      StringLeqTotal(a.createdAt, b.createdAt);
    }
    forall a: Item, b: Item, c: Item | Older(a, b) && Older(b, c) ensures Older(a, c) {
      if a.createdAt == b.createdAt == c.createdAt {
        StringLeqTransitive(a.id, b.id, c.id);
      } else {
        OlderTransitive(a, b, c);
      }
    }
  }

  lemma OlderTransitive(a: Item, b: Item, c: Item)
    requires Older(a, b) && Older(b, c) && !(a.createdAt == b.createdAt == c.createdAt)
    ensures Older(a, c)
  {
    StringLeqTotal(a.createdAt, a.createdAt);
    StringLeqTotal(b.createdAt, b.createdAt);
    StringLeqTransitive(a.createdAt, b.createdAt, c.createdAt);
    if a.createdAt == c.createdAt {
      StringLeqAntisymmetric(a.createdAt, b.createdAt);
    }
  }

  function TotalBytes(items: seq<Item>): nat {
    if items == [] then 0 else items[0].bytes + TotalBytes(items[1..])
  }

  /** What is left after removing the first `n` removable items. */
  function Left(items: seq<Item>, keep: Option<string>, n: nat): seq<Item> {
    if items == [] || n == 0 then items
    else if keep == Some(items[0].id) then [items[0]] + Left(items[1..], keep, n)
    else Left(items[1..], keep, n - 1)
  }

  function Removable(items: seq<Item>, keep: Option<string>): seq<Item> {
    if items == [] then []
    else if keep == Some(items[0].id) then Removable(items[1..], keep)
    else [items[0]] + Removable(items[1..], keep)
  }

  /** The retention bounds. */
  datatype Bounds = Bounds(count: nat, bytes: nat)

  predicate Within(b: Bounds, items: seq<Item>) {
    |items| <= b.count && TotalBytes(items) <= b.bytes
  }

  /** Removing `n` of the oldest removable items is the least that meets the bounds, or
      all that can be done. */
  ghost predicate LeastRemoval(b: Bounds, items: seq<Item>, keep: Option<string>, n: nat) {
    && n <= |Removable(items, keep)|
    && (Within(b, Left(items, keep, n)) || n == |Removable(items, keep)|)
    && forall j: nat :: j < n ==> !Within(b, Left(items, keep, j))
  }

  lemma {:induction false} LeftCounts(items: seq<Item>, keep: Option<string>, n: nat)
    requires n <= |Removable(items, keep)|
    ensures |Left(items, keep, n)| == |items| - n
    ensures TotalBytes(Left(items, keep, n)) == TotalBytes(items) - TotalBytes(Removable(items, keep)[..n])
  {
    if items != [] && n > 0 {
      if keep == Some(items[0].id) {
        LeftCounts(items[1..], keep, n);
      } else {
        LeftCounts(items[1..], keep, n - 1);
        assert Removable(items, keep)[..n][1..] == Removable(items[1..], keep)[..n - 1];
      }
    }
  }

  lemma {:induction false} TotalBytesNext(items: seq<Item>, n: nat)
    requires n < |items|
    ensures TotalBytes(items[..n + 1]) == TotalBytes(items[..n]) + items[n].bytes
  {
    if n > 0 {
      TotalBytesNext(items[1..], n - 1);
      assert items[..n + 1][1..] == items[1..][..n] && items[..n][1..] == items[1..][..n - 1];
    }
  }

  lemma {:induction false} NothingKept(items: seq<Item>)
    ensures Removable(items, None) == items
  {
    if items != [] {
      NothingKept(items[1..]);
    }
  }

  lemma {:induction false} LeftIsSuffix(items: seq<Item>, n: nat)
    requires n <= |items|
    ensures Left(items, None, n) == items[n..]
  {
    if items != [] && n > 0 {
      LeftIsSuffix(items[1..], n - 1);
    }
  }

  method SumBytes(items: seq<Item>) returns (total: nat)
    ensures total == TotalBytes(items)
  {
    total := 0;
    for i := 0 to |items|
      invariant total == TotalBytes(items[..i])
    {
      TotalBytesNext(items, i);
      total := total + items[i].bytes;
    }
    assert items[..|items|] == items;
  }

  /** How often an item that passes is stored. */
  function Unprotected(stored: seq<Item>, protectedId: Option<string>, x: Item): nat {
    if protectedId == Some(x.id) then 0 else multiset(stored)[x]
  }

  /** A listing: oldest first, every item that passes as often as it is stored. */
  ghost predicate Listing(summaries: seq<Item>, stored: seq<Item>, protectedId: Option<string>) {
    SortedBy(summaries, Older) && forall x :: multiset(summaries)[x] == Unprotected(stored, protectedId, x)
  }

  /** One more item of the sorted list is listed or passed over. */
  lemma ListNext(summaries: seq<Item>, listed: seq<Item>, i: nat, protectedId: Option<string>)
    requires i < |listed| && SortedBy(listed, Older)
    requires Listing(summaries, listed[..i], protectedId)
    ensures Listing(if protectedId == Some(listed[i].id) then summaries else summaries + [listed[i]],
                    listed[..i + 1], protectedId)
  {
    hide Older;
    assert listed[..i + 1] == listed[..i] + [listed[i]];
    forall x | x in summaries ensures Older(x, listed[i]) {
      assert multiset(summaries)[x] > 0;
      assert x in listed[..i];
    }
    assert forall k :: 0 <= k < |summaries| ==> summaries[k] in summaries;
  }

  method ListUnprotected(stored: seq<Item>, protectedId: Option<string>) returns (summaries: seq<Item>)
    ensures Listing(summaries, stored, protectedId)
  {
    hide Older, Listing, SortedBy, TotalPreorder, NoDuplicates, Sorted;
    OlderIsTotal();
    SortedKeepsAll(stored, Older);
    var listed := Sorted(stored, Older);
    summaries := [];
    NothingListed(protectedId);
    assert listed[..0] == [];
    for i := 0 to |listed|
      invariant Listing(summaries, listed[..i], protectedId)
    {
      ListNext(summaries, listed, i, protectedId);
      if protectedId != Some(listed[i].id) {
        summaries := summaries + [listed[i]];
      }
    }
    assert listed[..|listed|] == listed;
    SameListing(summaries, listed, stored, protectedId);
  }

  lemma NothingListed(protectedId: Option<string>)
    ensures Listing([], [], protectedId)
  {
  }

  lemma SameListing(summaries: seq<Item>, listed: seq<Item>, stored: seq<Item>, protectedId: Option<string>)
    requires Listing(summaries, listed, protectedId) && multiset(listed) == multiset(stored)
    ensures Listing(summaries, stored, protectedId)
  {
  }

  // ----- checkpoints -----

  /** Delete the oldest checkpoints until the bounds hold, never the protected one;
      `reserve` slots stay free for checkpoints about to be written. The bounds hold
      afterwards, and undoing the newest deletion would break one. */
  method PruneCheckpoints(stored: seq<Item>, retained: int, retainedBytes: nat, protectedId: Option<string>, reserve: int)
    returns (removed: seq<Item>, freed: nat, summaries: seq<Item>)
    ensures Listing(summaries, stored, protectedId)
    ensures removed <= summaries && freed == TotalBytes(removed)
    ensures var b := Bounds(Max(0, retained - Max(0, reserve)), retainedBytes);
            && Within(b, summaries[|removed|..])
            && forall j: nat :: j < |removed| ==> !Within(b, summaries[j..])
    ensures AllOlder(removed, summaries[|removed|..])
  {
    hide TotalBytes, AllOlder, Older;
    summaries := ListUnprotected(stored, protectedId);
    assert SortedBy(summaries, Older);
    hide Listing, SortedBy;
    var keep := Max(0, retained - Max(0, reserve));
    var totalBytes := SumBytes(summaries);
    ghost var b := Bounds(keep, retainedBytes);
    NoBytes();
    removed, freed := [], 0;
    for i := 0 to |summaries|
      invariant removed == summaries[..i] && freed == TotalBytes(removed)
      invariant forall j: nat :: j < i ==> !Within(b, summaries[j..])
    {
      BytesSplit(summaries, i);
      var withinCount := |summaries| - |removed| <= keep;
      if withinCount && totalBytes - freed <= retainedBytes {
        OldestGoFirst(summaries, i);
        return;
      }
      TotalBytesNext(summaries, i);
      freed := freed + summaries[i].bytes;
      removed := removed + [summaries[i]];
    }
    assert summaries[|removed|..] == [];
    OldestGoFirst(summaries, |summaries|);
  }

  lemma NoBytes()
    ensures TotalBytes([]) == 0
  {
  }

  lemma {:induction false} BytesSplit(items: seq<Item>, n: nat)
    requires n <= |items|
    ensures TotalBytes(items) == TotalBytes(items[..n]) + TotalBytes(items[n..])
  {
    if n == 0 {
      assert items[0..] == items && items[..0] == [];
    } else {
      BytesSplit(items[1..], n - 1);
      assert items[..n][0] == items[0];
      assert items[..n][1..] == items[1..][..n - 1];
      assert items[1..][n - 1..] == items[n..];
    }
  }

  // ----- sessions -----

  const MAX_WORKSPACE_SESSIONS: nat := 16
  const MAX_WORKSPACE_SESSION_BYTES: nat := 4 * 1024 * 1024

  lemma {:induction false} RemovableNext(items: seq<Item>, keep: Option<string>, i: nat)
    requires i < |items|
    ensures Removable(items[..i + 1], keep) ==
            Removable(items[..i], keep) + if keep == Some(items[i].id) then [] else [items[i]]
    decreases i
  {
    if i > 0 {
      RemovableNext(items[1..], keep, i - 1);
      assert items[..i + 1][1..] == items[1..][..i] && items[..i][1..] == items[1..][..i - 1];
    }
  }

  lemma {:induction false} RemovablePrefix(items: seq<Item>, keep: Option<string>, i: nat)
    requires i <= |items|
    ensures Removable(items[..i], keep) <= Removable(items, keep)
    decreases |items| - i
  {
    if i == |items| {
      assert items[..i] == items;
    } else {
      RemovableNext(items, keep, i);
      RemovablePrefix(items, keep, i + 1);
    }
  }

  /** The readable sessions of one workspace. */
  class SessionStore {
    var stored: map<string, Item>

    ghost predicate Valid()
      reads this
    {
      forall id :: id in stored ==> stored[id].id == id
    }

    /** Oldest first, every readable session once. */
    ghost predicate Listed(items: seq<Item>)
      reads this
    {
      && SortedBy(items, Older) && NoDuplicates(items)
      && forall x :: x in items <==> x.id in stored && stored[x.id] == x
    }

    method List() returns (items: seq<Item>)
      requires Valid()
      ensures Listed(items)
    {
      hide Older;
      OlderIsTotal();
      var ids := SetToSeq(stored.Keys);
      var found: seq<Item> := [];
      for i := 0 to |ids|
        invariant NoDuplicates(found)
        invariant forall x :: x in found <==> x.id in ids[..i] && stored[x.id] == x
      {
        TakeNext(ids, i);
        found := found + [stored[ids[i]]];
      }
      assert ids[..|ids|] == ids;
      items := Sorted(found, Older);
    }

    /** Drop the oldest sessions past the bounds, never the kept one. The bounds hold
        afterwards or nothing removable is left, and undoing the newest removal would
        break one. */
    method Prune(keep: Option<string>, reserve: int) returns (removed: nat, items: seq<Item>)
      requires Valid()
      modifies this
      ensures Valid() && old(Listed(items))
      ensures LeastRemoval(Bounds(Max(0, MAX_WORKSPACE_SESSIONS - reserve), MAX_WORKSPACE_SESSION_BYTES), items, keep, removed)
      ensures stored == old(stored) - IdSet(Removable(items, keep)[..removed])
      ensures AllOlder(Removable(items, keep)[..removed], Removable(items, keep)[removed..])
    {
      hide Older, SortedBy, AllOlder;
      hide Listed, LeastRemoval, Within, Left, TotalBytes, NoDuplicates, Removable, IdSet, TooMany;
      var limit := Max(0, MAX_WORKSPACE_SESSIONS - reserve);
      items := List();
      ListedInOrder(items, keep);
      ghost var b := Bounds(limit, MAX_WORKSPACE_SESSION_BYTES);
      ghost var all := Removable(items, keep);
      var totalBytes := SumBytes(items);
      removed := 0;
      StartPruning(b, items, keep);
      for i := 0 to |items|
        invariant Valid() && removed == |Removable(items[..i], keep)|
        invariant Removable(items[..i], keep) <= all
        invariant removed <= |all| && totalBytes == TotalBytes(items) - TotalBytes(all[..removed])
        invariant stored == old(stored) - IdSet(all[..removed])
        invariant TooMany(b, items, keep, removed)
      {
        LeftCounts(items, keep, removed);
        var overCount := |items| - removed > limit;
        var overBytes := totalBytes > MAX_WORKSPACE_SESSION_BYTES;
        if !overCount && !overBytes {
          Enough(b, items, keep, removed);
          return;
        }
        RemovableNext(items, keep, i);
        RemovablePrefix(items, keep, i + 1);
        if keep != Some(items[i].id) {
          OneMoreRemoved(b, items, keep, removed);
          assert all[removed] == items[i];
          TotalBytesNext(all, removed);
          IdSetNext(all, removed);
          stored := stored - {items[i].id};
          totalBytes := totalBytes - items[i].bytes;
          removed := removed + 1;
        }
      }
      assert items[..|items|] == items;
      NoneLeft(b, items, keep, removed);
    }

    lemma ListedInOrder(items: seq<Item>, keep: Option<string>)
      requires Listed(items)
      ensures SortedBy(Removable(items, keep), Older)
      ensures forall n: nat :: n <= |Removable(items, keep)| ==>
                AllOlder(Removable(items, keep)[..n], Removable(items, keep)[n..])
    {
      hide Older, AllOlder, Removable;
      RemovableSorted(items, keep);
      forall n: nat | n <= |Removable(items, keep)|
        ensures AllOlder(Removable(items, keep)[..n], Removable(items, keep)[n..])
      {
        OldestGoFirst(Removable(items, keep), n);
      }
    }

    /** Fewer removals than `n` do not meet the bounds. */
    ghost predicate TooMany(b: Bounds, items: seq<Item>, keep: Option<string>, n: nat) {
      forall j: nat :: j < n ==> !Within(b, Left(items, keep, j))
    }

    lemma StartPruning(b: Bounds, items: seq<Item>, keep: Option<string>)
      ensures TooMany(b, items, keep, 0)
      ensures Removable(items[..0], keep) == [] && TotalBytes(Removable(items, keep)[..0]) == 0
      ensures Removable(items, keep)[..0] == [] && IdSet([]) == {}
    {
    }

    lemma OneMoreRemoved(b: Bounds, items: seq<Item>, keep: Option<string>, n: nat)
      requires TooMany(b, items, keep, n) && n <= |Removable(items, keep)|
      requires |items| - n > b.count || TotalBytes(items) - TotalBytes(Removable(items, keep)[..n]) > b.bytes
      ensures TooMany(b, items, keep, n + 1)
    {
      LeftCounts(items, keep, n);
    }

    lemma Enough(b: Bounds, items: seq<Item>, keep: Option<string>, n: nat)
      requires TooMany(b, items, keep, n) && n <= |Removable(items, keep)|
      requires |items| - n <= b.count && TotalBytes(items) - TotalBytes(Removable(items, keep)[..n]) <= b.bytes
      ensures LeastRemoval(b, items, keep, n)
    {
      LeftCounts(items, keep, n);
    }

    lemma NoneLeft(b: Bounds, items: seq<Item>, keep: Option<string>, n: nat)
      requires TooMany(b, items, keep, n) && n == |Removable(items, keep)|
      ensures LeastRemoval(b, items, keep, n)
    {
    }

    /** Store a new session after making room for it: a workspace never holds more than
        the maximum number of readable sessions. */
    method Create(id: string, now: string, bytes: nat)
      requires Valid()
      modifies this
      ensures Valid() && id in stored && stored[id] == Item(id, now, bytes)
      ensures |stored| <= MAX_WORKSPACE_SESSIONS
      ensures forall other :: other in stored && other != id ==> other in old(stored) && stored[other] == old(stored)[other]
    {
      ghost var before := stored;
      var removed, items := Prune(Some(id), 1);
      RoomForOne(before, items, id, removed);
      stored := stored[id := Item(id, now, bytes)];
    }

    /** After pruning with one slot reserved, fewer than the maximum remain besides `id`. */
    lemma RoomForOne(before: map<string, Item>, items: seq<Item>, id: string, n: nat)
      requires forall k :: k in before ==> before[k].id == k
      requires NoDuplicates(items) && forall x :: x in items <==> x.id in before && before[x.id] == x
      requires LeastRemoval(Bounds(MAX_WORKSPACE_SESSIONS - 1, MAX_WORKSPACE_SESSION_BYTES), items, Some(id), n)
      ensures |(before - IdSet(Removable(items, Some(id))[..n])).Keys - {id}| <= MAX_WORKSPACE_SESSIONS - 1
    {
      var gone := Removable(items, Some(id))[..n];
      var keys := (before - IdSet(gone)).Keys;
      LeftCounts(items, Some(id), n);
      KeysAreItems(before, items);
      RemovableDistinct(items, Some(id));
      DistinctIds(gone);
      assert IdSet(gone) <= before.Keys by {
        forall k | k in IdSet(gone) ensures k in before.Keys {
          var x :| x in gone && x.id == k;
          assert x in Removable(items, Some(id));
        }
      }
      assert keys == before.Keys - IdSet(gone);
      assert |keys| == |items| - n;
      if Within(Bounds(MAX_WORKSPACE_SESSIONS - 1, MAX_WORKSPACE_SESSION_BYTES), Left(items, Some(id), n)) {
        assert |keys| <= MAX_WORKSPACE_SESSIONS - 1;
        assert keys - {id} <= keys;
        SubsetSmaller(keys - {id}, keys);
      } else {
        OnlyKeptLeft(before, items, id);
        assert keys - {id} == {};
      }
    }
  }

  function IdSet(items: seq<Item>): set<string> {
    set x | x in items :: x.id
  }

  lemma IdSetNext(items: seq<Item>, n: nat)
    requires n < |items|
    ensures IdSet(items[..n + 1]) == IdSet(items[..n]) + {items[n].id}
  {
    TakeNext(items, n);
  }

  lemma SubsetSmaller(a: set<string>, b: set<string>)
    requires a <= b
    ensures |a| <= |b|
  {
    assert b == a + (b - a);
  }

  lemma {:induction false} RemovableDistinct(items: seq<Item>, keep: Option<string>)
    requires forall i, j :: 0 <= i < j < |items| ==> items[i].id != items[j].id
    ensures var r := Removable(items, keep);
            && (forall x :: x in r <==> x in items && keep != Some(x.id))
            && forall i, j :: 0 <= i < j < |r| ==> r[i].id != r[j].id
  {
    if items != [] {
      RemovableDistinct(items[1..], keep);
      assert items == [items[0]] + items[1..];
    }
  }

  lemma {:induction false} RemovableSorted(items: seq<Item>, keep: Option<string>)
    requires SortedBy(items, Older)
    ensures SortedBy(Removable(items, keep), Older)
    ensures forall x :: x in Removable(items, keep) ==> x in items
  {
    hide Older;
    if items != [] {
      RemovableSorted(items[1..], keep);
      var r := Removable(items[1..], keep);
      forall j | 0 <= j < |r| ensures Older(items[0], r[j]) {
        assert r[j] in items[1..];
      }
    }
  }

  lemma DistinctIds(items: seq<Item>)
    requires forall i, j :: 0 <= i < j < |items| ==> items[i].id != items[j].id
    ensures |IdSet(items)| == |items|
  {
    var ids := seq(|items|, i requires 0 <= i < |items| => items[i].id);
    DistinctCount(ids);
    assert Elements(ids) == IdSet(items) by {
      assert forall i :: 0 <= i < |items| ==> ids[i] == items[i].id;
    }
  }

  lemma KeysAreItems(before: map<string, Item>, items: seq<Item>)
    requires forall k :: k in before ==> before[k].id == k
    requires NoDuplicates(items) && forall x :: x in items <==> x.id in before && before[x.id] == x
    ensures forall i, j :: 0 <= i < j < |items| ==> items[i].id != items[j].id
    ensures before.Keys == IdSet(items) && |before| == |items|
  {
    forall i, j | 0 <= i < j < |items| ensures items[i].id != items[j].id {
      assert items[i] in items && items[j] in items;
    }
    DistinctIds(items);
    forall k | k in before ensures k in IdSet(items) {
      assert before[k] in items;
    }
    assert before.Keys == IdSet(items);
  }

  lemma OnlyKeptLeft(before: map<string, Item>, items: seq<Item>, id: string)
    requires forall k :: k in before ==> before[k].id == k
    requires NoDuplicates(items) && forall x :: x in items <==> x.id in before && before[x.id] == x
    ensures before.Keys - IdSet(Removable(items, Some(id))) <= {id}
  {
    KeysAreItems(before, items);
    RemovableDistinct(items, Some(id));
    forall k | k in before && k != id ensures k in IdSet(Removable(items, Some(id))) {
      assert before[k] in items;
    }
  }
}
