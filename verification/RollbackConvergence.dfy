/** When a rollback completes, when repeating it helps, and when it is idempotent. */
module RollbackConvergence {
  import opened Prelude
  import opened FileTree
  import opened Checkpoint
  import opened Rollback
  import opened RollbackTheory
  import opened RollbackGuarantees

  predicate CapturedPath(b: Baseline, p: Path) {
    p in b.cp.entries && b.cp.entries[p].state.Captured?
  }

  /** The content of a captured file is still stored, and unchanged. */
  predicate BlobIntact(b: Baseline, p: Path)
    requires CapturedPath(b, p)
  {
    var d := b.cp.entries[p].state.digest;
    d in b.blobs && b.host.hash(b.blobs[d]) == d
  }

  /** No baseline directory was replaced by a leaf and no captured file by a directory. */
  predicate NoSwaps(b: Baseline, t: Tree) {
    && (forall q | q in b.cp.directories :: q in t ==> t[q].Dir?)
    && (forall p | p in b.cp.entries :: CapturedPath(b, p) && p in t ==> !t[p].Dir?)
  }

  /** An added file the plan would delete. */
  predicate AddedFile(b: Baseline, t: Tree, p: Path) {
    FileInScope(b.host, t, p) && p !in b.cp.entries && !SensitivePath(b.host, p)
  }

  /** Nothing out of scope or sensitive sits on a swapped path or inside a new
      directory, no added name fails the path check, and every captured file still
      needed has its blob. */
  predicate Clean(b: Baseline, t: Tree) {
    && (forall q | q in b.cp.directories :: q in t && !t[q].Dir? ==> t[q].File? && !SensitivePath(b.host, q))
    && (forall p | p in b.cp.entries :: CapturedPath(b, p) && p in t && t[p].Dir? ==> Scoped(b.host, p))
    && (forall p | p in t :: DirInScope(b.host, t, p) && p !in b.cp.directories ==>
          Addressable(p) && !Obstructed(b.host, t, p))
    && (forall p | p in t :: AddedFile(b, t, p) ==> Addressable(p))
    && (forall p | p in b.cp.entries :: CapturedPath(b, p) ==>
          BlobIntact(b, p) || BaselineAction(b.host, b.cp, t, p) == None)
  }

  lemma StoredExactly(b: Baseline, p: Path)
    requires CapturedPath(b, p)
    ensures var d := b.cp.entries[p].state.digest;
            StoredContent(b, p) == if BlobIntact(b, p) then Ok(b.blobs[d])
                                   else Err(if d in b.blobs then Corrupt else ReadError)
  {
  }

  lemma LeafBlocks(t: Tree, q: Path)
    requires q != [] && q in t && !t[q].Dir?
    ensures !CanMakeDirectory(t, q)
  {
    assert q[..|q|] == q;
  }

  lemma FailureRefutes(b: Baseline, t: Tree, a: Action, p: Path)
    requires Planned(b.host, b.cp, t, a, p) && Fails(b, t, a, p)
    ensures !Completes(b, t)
  {
  }

  lemma SwapFails(b: Baseline, t: Tree)
    requires SoundBaseline(b.host, b.cp) && !NoSwaps(b, t)
    ensures !Completes(b, t)
  {
    hide Completes, CanMakeDirectory, SoundBaseline;
    if q :| q in b.cp.directories && q in t && !t[q].Dir? {
      InBaselineNotRoot(b, q);
      LeafBlocks(t, q);
      FailureRefutes(b, t, CreateDirectory, q);
    } else {
      var p :| p in b.cp.entries && CapturedPath(b, p) && p in t && t[p].Dir?;
      FailureRefutes(b, t, Recreate, p);
    }
  }

  lemma UncleanFails(b: Baseline, t: Tree)
    requires SoundBaseline(b.host, b.cp) && !Clean(b, t)
    ensures !Completes(b, t)
  {
    hide Completes, SoundBaseline, Obstructed, StoredContent, CanMakeDirectory, Addressable;
    if NoSwaps(b, t) {
      if p :| p in t && DirInScope(b.host, t, p) && p !in b.cp.directories &&
              !(Addressable(p) && !Obstructed(b.host, t, p)) {
        FailureRefutes(b, t, RemoveDirectory, p);
      } else if p :| p in t && AddedFile(b, t, p) && !Addressable(p) {
        FailureRefutes(b, t, Delete, p);
      } else {
        var p :| p in b.cp.entries && CapturedPath(b, p) &&
                 !BlobIntact(b, p) && BaselineAction(b.host, b.cp, t, p) != None;
        StoredExactly(b, p);
        BaselineActions(b, t, p);
        FailureRefutes(b, t, BaselineAction(b.host, b.cp, t, p).value, p);
      }
    } else {
      SwapFails(b, t);
    }
  }

  lemma MakeableWithoutSwaps(b: Baseline, t: Tree, d: Path)
    requires SoundBaseline(b.host, b.cp) && NoSwaps(b, t)
    requires d == [] || d in b.cp.directories
    ensures CanMakeDirectory(t, d)
  {
    hide SoundBaseline;
    forall i | 1 <= i <= |d| && d[..i] in t ensures t[d[..i]].Dir? {
      OnTheWay(b, d, d[..i]);
    }
  }

  /** A round completes exactly when nothing was swapped and nothing unremovable is in the way. */
  lemma CompletesExactly(b: Baseline, t: Tree)
    requires Ready(b, t)
    ensures Completes(b, t) <==> Clean(b, t) && NoSwaps(b, t)
  {
    hide SoundBaseline, WellFormed;
    if Clean(b, t) && NoSwaps(b, t) {
      forall a, p | Planned(b.host, b.cp, t, a, p) ensures !Fails(b, t, a, p) {
        CleanActionSucceeds(b, t, a, p);
      }
    } else if !Clean(b, t) {
      UncleanFails(b, t);
    } else {
      SwapFails(b, t);
    }
  }

  lemma CleanActionSucceeds(b: Baseline, t: Tree, a: Action, p: Path)
    requires SoundBaseline(b.host, b.cp)
    requires Clean(b, t) && NoSwaps(b, t) && Planned(b.host, b.cp, t, a, p)
    ensures !Fails(b, t, a, p)
  {
    hide SoundBaseline, CanMakeDirectory, Obstructed, StoredContent, Addressable;
    if !a.Delete? && !a.RemoveDirectory? {
      BaselineAddressable(b, p);
    }
    match a
    case CreateDirectory => MakeableWithoutSwaps(b, t, p);
    case Restore => ParentInBaseline(b, p); MakeableWithoutSwaps(b, t, Parent(p)); StoredExactly(b, p);
    case Recreate => ParentInBaseline(b, p); MakeableWithoutSwaps(b, t, Parent(p)); StoredExactly(b, p);
    case Delete =>
    case RemoveDirectory =>
  }

  // ----- what one round does to swaps and obstacles -----

  lemma CapturedIsNoDirectory(b: Baseline, p: Path)
    requires SoundBaseline(b.host, b.cp) && p in b.cp.entries
    ensures p !in b.cp.directories
  {
  }

  lemma CleanDirectoryFinal(b: Baseline, t: Tree, q: Path)
    requires WellFormed(t) && SoundBaseline(b.host, b.cp) && Clean(b, t)
    requires q in b.cp.directories
    ensures Final(b, t, q) == None || Final(b, t, q) == Some(Dir)
  {
    hide WellFormed, SoundBaseline, Final, CanMakeDirectory;
    FinalDirectory(b, t, q);
    if q in t && t[q].Dir? {
      MakeableInWellFormed(t, q);
    }
  }

  lemma CleanCapturedFinal(b: Baseline, t: Tree, p: Path)
    requires SoundBaseline(b.host, b.cp) && Clean(b, t) && CapturedPath(b, p)
    ensures Final(b, t, p).Some? ==> !Final(b, t, p).value.Dir?
    ensures !BlobIntact(b, p) ==> Final(b, t, p) == Get(t, p) && BaselineAction(b.host, b.cp, t, p) == None
  {
    hide SoundBaseline, Final;
    StoredExactly(b, p);
    FinalCaptured(b, t, p);
    CapturedIsNoDirectory(b, p);
  }

  lemma CleanNewDirectoryFinal(b: Baseline, t: Tree, p: Path)
    requires SoundBaseline(b.host, b.cp) && Clean(b, t)
    requires p !in b.cp.directories && Scoped(b.host, p)
    ensures Final(b, t, p) != Some(Dir)
  {
    hide SoundBaseline, Final, Obstructed, FileInScope;
    if CapturedPath(b, p) {
      CleanCapturedFinal(b, t, p);
    } else {
      FinalElsewhere(b, t, p);
    }
  }

  lemma CleanAddedFinal(b: Baseline, t: Tree, p: Path)
    requires WellFormed(t) && SoundBaseline(b.host, b.cp) && Clean(b, t)
    requires p !in b.cp.entries && !SensitivePath(b.host, p) && Scoped(b.host, Parent(p))
    ensures Final(b, t, p).Some? ==> !Final(b, t, p).value.File?
  {
    hide SoundBaseline, Final, Obstructed, DirInScope, WellFormed, Addressable;
    if p in b.cp.directories {
      CleanDirectoryFinal(b, t, p);
    } else {
      FinalElsewhere(b, t, p);
    }
  }

  /** One round over a clean tree clears every swap. */
  lemma CleanRoundClears(b: Baseline, t: Tree, stamp: Path -> int)
    requires Ready(b, t) && Clean(b, t)
    ensures Clean(b.(stamp := stamp), RolledBack(b, t)) && NoSwaps(b.(stamp := stamp), RolledBack(b, t))
  {
    hide WellFormed, SoundBaseline, Final, RolledBack, BaselineAction, StoredContent, Clean, Obstructed, Scoped;
    var b', f := b.(stamp := stamp), RolledBack(b, t);
    forall q | q in b.cp.directories && q in f ensures f[q].Dir? {
      FinalOf(b, t, q);
      CleanDirectoryFinal(b, t, q);
    }
    forall p | CapturedPath(b, p) && p in f ensures !f[p].Dir? {
      FinalOf(b, t, p);
      CleanCapturedFinal(b, t, p);
    }
    forall p | DirInScope(b.host, f, p) ensures p in b.cp.directories {
      FinalOf(b, t, p);
      if p !in b.cp.directories {
        CleanNewDirectoryFinal(b, t, p);
      }
    }
    forall p | AddedFile(b', f, p) ensures false {
      FinalOf(b, t, p);
      CleanAddedFinal(b, t, p);
    }
    forall p | CapturedPath(b, p) ensures BlobIntact(b', p) || BaselineAction(b.host, b.cp, f, p) == None {
      FinalOf(b, t, p);
      CleanCapturedFinal(b, t, p);
      SameNodeSameAction(b, t, f, p);
    }
    AssembleClean(b', f);
  }

  lemma StampIrrelevant(b: Baseline, stamp: Path -> int, p: Path)
    ensures StoredContent(b.(stamp := stamp), p) == StoredContent(b, p)
  {
  }

  lemma SameNodeSameAction(b: Baseline, t: Tree, f: Tree, p: Path)
    requires p in b.cp.entries
    ensures Get(t, p) == Get(f, p) ==> BaselineAction(b.host, b.cp, t, p) == BaselineAction(b.host, b.cp, f, p)
  {
  }

  lemma AssembleClean(b: Baseline, f: Tree)
    requires NoSwaps(b, f)
    requires forall p :: DirInScope(b.host, f, p) ==> p in b.cp.directories
    requires forall p :: !AddedFile(b, f, p)
    requires forall p :: CapturedPath(b, p) ==> BlobIntact(b, p) || BaselineAction(b.host, b.cp, f, p) == None
    ensures Clean(b, f)
  {
    hide StoredContent, BaselineAction, Obstructed, DirInScope;
  }

  /** A new directory that cannot be removed stays, and still cannot. */
  lemma ObstacleStays(b: Baseline, t: Tree, p: Path)
    requires WellFormed(t) && SoundBaseline(b.host, b.cp)
    requires DirInScope(b.host, t, p) && p !in b.cp.directories && Fails(b, t, RemoveDirectory, p)
    ensures DirInScope(b.host, RolledBack(b, t), p) && Fails(b, RolledBack(b, t), RemoveDirectory, p)
  {
    hide WellFormed, BaselineShape, Loadable, Final, RolledBack, Scoped, SensitivePath, Addressable;
    var f := RolledBack(b, t);
    NotRoot(t, p);
    FinalOf(b, t, p);
    if CapturedPath(b, p) {
      FinalCaptured(b, t, p);
      BaselineAddressable(b, p);
    } else {
      FinalElsewhere(b, t, p);
    }
    if Addressable(p) {
      var q :| q in t && p < q && Stuck(b.host, t, q);
      NothingBelowNewDirectory(b.host, b.cp, p, q);
      FinalOf(b, t, q);
      FinalElsewhere(b, t, q);
      assert Stuck(b.host, f, q);
    }
  }

  /** An added file whose name fails the path check is left where it is. */
  lemma UnaddressableStays(b: Baseline, t: Tree, p: Path)
    requires SoundBaseline(b.host, b.cp) && AddedFile(b, t, p) && !Addressable(p)
    ensures AddedFile(b, RolledBack(b, t), p) && Get(RolledBack(b, t), p) == Get(t, p)
  {
    hide Final, RolledBack, Addressable, SensitivePath;
    FinalOf(b, t, p);
    FinalElsewhere(b, t, p);
  }

  /** A tree that is not clean stays not clean. */
  lemma UncleanStays(b: Baseline, t: Tree, stamp: Path -> int)
    requires Ready(b, t) && !Clean(b, t)
    ensures !Clean(b.(stamp := stamp), RolledBack(b, t))
  {
    hide WellFormed, SoundBaseline, Final, RolledBack, BaselineAction, StoredContent, Obstructed, CanMakeDirectory;
    hide Addressable;
    var b', f := b.(stamp := stamp), RolledBack(b, t);
    if q :| q in b.cp.directories && q in t && !t[q].Dir? && !(t[q].File? && !SensitivePath(b.host, q)) {
      FinalOf(b, t, q);
      FinalDirectory(b, t, q);
      InBaselineNotRoot(b, q);
      LeafBlocks(t, q);
      assert f[q] == t[q];
    } else if p :| p in b.cp.entries && CapturedPath(b, p) && p in t && t[p].Dir? && !Scoped(b.host, p) {
      FinalOf(b, t, p);
      FinalCaptured(b, t, p);
      assert f[p] == t[p];
    } else if p :| p in t && DirInScope(b.host, t, p) && p !in b.cp.directories &&
                   !(Addressable(p) && !Obstructed(b.host, t, p)) {
      ObstacleStays(b, t, p);
    } else if p :| p in t && AddedFile(b, t, p) && !Addressable(p) {
      UnaddressableStays(b, t, p);
    } else {
      var p :| p in b.cp.entries && CapturedPath(b, p) &&
               !BlobIntact(b, p) && BaselineAction(b.host, b.cp, t, p) != None;
      FinalOf(b, t, p);
      FinalCaptured(b, t, p);
      StoredExactly(b, p);
      LostStaysLost(b, t, f, p);
    }
  }

  lemma LostStaysLost(b: Baseline, t: Tree, f: Tree, p: Path)
    requires p in b.cp.entries && BaselineAction(b.host, b.cp, t, p) != None
    requires Get(f, p) == Get(t, p) || Get(f, p) == None
    ensures BaselineAction(b.host, b.cp, f, p) != None
  {
  }

  // ----- any number of rounds -----

  /** The tree after `n` rounds; every round gets its own modification times. */
  ghost function AfterRounds(b: Baseline, stamps: nat -> Path -> int, t: Tree, n: nat): Tree {
    if n == 0 then t
    else RolledBack(b.(stamp := stamps(n - 1)), AfterRounds(b, stamps, t, n - 1))
  }

  ghost predicate RoundCompletes(b: Baseline, stamps: nat -> Path -> int, t: Tree, n: nat) {
    Completes(b.(stamp := stamps(n)), AfterRounds(b, stamps, t, n))
  }

  lemma StampKeepsShape(b: Baseline, t: Tree, stamp: Path -> int)
    ensures Clean(b.(stamp := stamp), t) == Clean(b, t)
    ensures NoSwaps(b.(stamp := stamp), t) == NoSwaps(b, t)
  {
    hide Obstructed, BaselineAction, Scoped, Addressable, SensitivePath;
    forall p ensures AddedFile(b.(stamp := stamp), t, p) == AddedFile(b, t, p) {
    }
    forall p ensures StoredContent(b.(stamp := stamp), p) == StoredContent(b, p) {
      StampIrrelevant(b, stamp, p);
    }
    forall p ensures CapturedPath(b.(stamp := stamp), p) == CapturedPath(b, p) {
    }
  }

  lemma {:induction false} RoundsKeepShape(b: Baseline, stamps: nat -> Path -> int, t: Tree, n: nat)
    requires ReadyForGood(b, t)
    ensures ReadyForGood(b, AfterRounds(b, stamps, t, n))
    ensures Clean(b, AfterRounds(b, stamps, t, n)) <==> Clean(b, t)
    ensures n > 0 && Clean(b, t) ==> NoSwaps(b, AfterRounds(b, stamps, t, n))
  {
    hide WellFormed, SoundBaseline, PlainLinks, StableLinks, Clean, NoSwaps, RolledBack;
    if n > 0 {
      RoundsKeepShape(b, stamps, t, n - 1);
      var b' := b.(stamp := stamps(n - 1));
      var s := AfterRounds(b, stamps, t, n - 1);
      StampKeepsShape(b, s, stamps(n - 1));
      RoundKeepsReady(b', s);
      if Clean(b, t) {
        CleanRoundClears(b', s, b.stamp);
      } else {
        UncleanStays(b', s, b.stamp);
      }
      assert b'.(stamp := b.stamp) == b;
    }
  }

  /** From the second round on, a round completes exactly when the tree the run left
      is clean; a clean tree needs at most two rounds, and any other never completes. */
  lemma TwoRoundsOrNever(b: Baseline, stamps: nat -> Path -> int, t: Tree, n: nat)
    requires ReadyForGood(b, t)
    ensures RoundCompletes(b, stamps, t, n) <==> Clean(b, t) && (n > 0 || NoSwaps(b, t))
  {
    hide WellFormed, SoundBaseline, PlainLinks, StableLinks, Clean, NoSwaps, RolledBack, Completes;
    RoundsKeepShape(b, stamps, t, n);
    var s := AfterRounds(b, stamps, t, n);
    StampKeepsShape(b, s, stamps(n));
    CompletesExactly(b.(stamp := stamps(n)), s);
  }

  /** A run leaves a file named `a\b`: rollback plans its deletion, the path check
      refuses it, and so it stays and no round ever completes. */
  lemma {:induction false} BackslashNeverCompletes(b: Baseline, stamps: nat -> Path -> int, t: Tree, p: Path, n: nat)
    requires ReadyForGood(b, t) && p != [] && '\\' in p[|p| - 1] && AddedFile(b, t, p)
    ensures !RoundCompletes(b, stamps, t, n)
    ensures Get(AfterRounds(b, stamps, t, n), p) == Get(t, p)
  {
    hide WellFormed, SoundBaseline, PlainLinks, StableLinks, RolledBack, Completes, Planned, StoredContent, BaselineAction;
    hide SensitivePath;
    assert !Addressable(p);
    if n > 0 {
      BackslashNeverCompletes(b, stamps, t, p, n - 1);
      RoundsKeepShape(b, stamps, t, n - 1);
      UnaddressableStays(b.(stamp := stamps(n - 1)), AfterRounds(b, stamps, t, n - 1), p);
    }
    TwoRoundsOrNever(b, stamps, t, n);
  }

  // ----- completeness and idempotence -----

  /** After a round that completes, a fresh plan has no items. */
  lemma CompleteMeansNothingPlanned(b: Baseline, t: Tree, a: Action, p: Path)
    requires Ready(b, t) && DigestsFixSize(b.host, b.cp)
    requires Completes(b, t)
    ensures !Planned(b.host, b.cp, RolledBack(b, t), a, p)
  {
    hide WellFormed, SoundBaseline, DigestsFixSize, RolledBack, Completes, Fails, SkippedFor;
    ReportedExactly(b, t, p);
    assert !FailsAt(b, t, p) by { NoneFails(b, t, p); }
    if SkippedFor(b.host, b.cp, t, p).Some? {
      SkippedIsLeftAlone(b, t, p);
    }
  }

  lemma NoneFails(b: Baseline, t: Tree, p: Path)
    requires Completes(b, t)
    ensures !FailsAt(b, t, p)
  {
    hide Planned, Fails;
  }

  lemma SkippedIsLeftAlone(b: Baseline, t: Tree, p: Path)
    requires WellFormed(t) && SoundBaseline(b.host, b.cp)
    requires !FailsAt(b, t, p) && SkippedFor(b.host, b.cp, t, p).Some?
    ensures forall a :: !Planned(b.host, b.cp, RolledBack(b, t), a, p)
  {
    hide WellFormed, RolledBack, FailsAt, Final, CanMakeDirectory, Obstructed;
    FailsAtCases(b, t, p);
    FinalOf(b, t, p);
    if p in b.cp.directories {
      InBaselineNotRoot(b, p);
      if CanMakeDirectory(t, p) { MakeableLeaf(t, p); }
      assert false;
    } else {
      FinalElsewhere(b, t, p);
    }
  }

  // ----- idempotence -----

  /** Every leaf in the way of a baseline directory is an ordinary added file, and there is one. */
  predicate Unblockable(b: Baseline, t: Tree, q: Path) {
    && !CanMakeDirectory(t, q)
    && forall i | 1 <= i <= |q| :: q[..i] in t && !t[q[..i]].Dir? ==>
         t[q[..i]].File? && !SensitivePath(b.host, q[..i])
  }

  /** The first round clears the way for something only a second round does. */
  predicate SecondRoundHelps(b: Baseline, t: Tree) {
    || (exists q | q in b.cp.directories :: Unblockable(b, t, q))
    || (exists p | p in b.cp.entries :: CapturedPath(b, p) && StoredContent(b, p).Ok? &&
                                        DirInScope(b.host, t, p) && !Obstructed(b.host, t, p))
  }

  lemma UnblockedNowMakeable(b: Baseline, t: Tree, q: Path)
    requires WellFormed(t) && SoundBaseline(b.host, b.cp) && q in b.cp.directories
    ensures Unblockable(b, t, q) <==> !CanMakeDirectory(t, q) && CanMakeDirectory(RolledBack(b, t), q)
  {
    hide WellFormed, SoundBaseline, RolledBack, Final;
    var f := RolledBack(b, t);
    forall i | 1 <= i <= |q|
      ensures (q[..i] in t && !t[q[..i]].Dir? ==> t[q[..i]].File? && !SensitivePath(b.host, q[..i])) <==>
              (q[..i] in f ==> f[q[..i]].Dir?)
    {
      var r := q[..i];
      OnTheWay(b, q, r);
      FinalOf(b, t, r);
      FinalDirectory(b, t, r);
      InBaselineNotRoot(b, r);
      if r in t && !t[r].Dir? { LeafBlocks(t, r); }
      if r in t && t[r].Dir? { MakeableInWellFormed(t, r); }
    }
  }

  lemma BlockedIsMissing(b: Baseline, t: Tree, q: Path)
    requires WellFormed(t) && SoundBaseline(b.host, b.cp) && q in b.cp.directories
    requires !CanMakeDirectory(t, q) && CanMakeDirectory(RolledBack(b, t), q)
    ensures q !in RolledBack(b, t)
  {
    hide WellFormed, SoundBaseline, RolledBack, Final;
    FinalOf(b, t, q);
    FinalDirectory(b, t, q);
    InBaselineNotRoot(b, q);
    MakeableLeaf(RolledBack(b, t), q);
    if q in t && t[q].Dir? { MakeableInWellFormed(t, q); }
  }

  /** If the second round helps, it changes the tree. */
  lemma SecondRoundChanges(b: Baseline, t: Tree, stamp: Path -> int)
    requires WellFormed(t) && SoundBaseline(b.host, b.cp) && SecondRoundHelps(b, t)
    ensures RolledBack(b.(stamp := stamp), RolledBack(b, t)) != RolledBack(b, t)
  {
    hide WellFormed, SoundBaseline, RolledBack, Final, Unblockable, CanMakeDirectory, Obstructed, Addressable;
    var b', f := b.(stamp := stamp), RolledBack(b, t);
    RoundKeepsTree(b, t);
    if q :| q in b.cp.directories && Unblockable(b, t, q) {
      UnblockedNowMakeable(b, t, q);
      BlockedIsMissing(b, t, q);
      FinalOf(b', f, q);
      FinalDirectory(b', f, q);
    } else {
      var p :| p in b.cp.entries && CapturedPath(b, p) && StoredContent(b, p).Ok? &&
               DirInScope(b.host, t, p) && !Obstructed(b.host, t, p);
      FinalOf(b, t, p);
      FinalCaptured(b, t, p);
      FinalOf(b', f, p);
      FinalCaptured(b', f, p);
      StampIrrelevant(b, stamp, p);
      ParentStands(b, t, p);
      InBaselineNotRoot(b, p);
      BaselineAddressable(b, p);
    }
  }

  lemma ParentStands(b: Baseline, t: Tree, p: Path)
    requires WellFormed(t) && SoundBaseline(b.host, b.cp) && p in b.cp.entries && p in t
    ensures CanMakeDirectory(RolledBack(b, t), Parent(p))
  {
    hide WellFormed, SoundBaseline, RolledBack, Final;
    ParentInBaseline(b, p);
    NotRoot(t, p);
    MakeableInWellFormed(t, Parent(p));
    RoundKeepsTree(b, t);
    if Parent(p) != [] {
      FinalOf(b, t, Parent(p));
      FinalDirectory(b, t, Parent(p));
    }
    MakeableInWellFormed(RolledBack(b, t), Parent(p));
  }

  lemma BaselineScope(b: Baseline, p: Path)
    requires SoundBaseline(b.host, b.cp)
    ensures p in b.cp.directories ==> Scoped(b.host, p)
    ensures p in b.cp.entries ==> Scoped(b.host, Parent(p)) && p !in b.cp.directories
  {
    if p in b.cp.entries { assert HasBaselineParent(b.cp, p); }
  }

  /** If the second round does not help, every action it plans fails. */
  lemma SecondRoundOnlyFails(b: Baseline, t: Tree, stamp: Path -> int, a: Action, p: Path)
    requires WellFormed(t) && SoundBaseline(b.host, b.cp) && DigestsFixSize(b.host, b.cp)
    requires !SecondRoundHelps(b, t)
    requires Planned(b.host, b.cp, RolledBack(b, t), a, p)
    ensures Fails(b.(stamp := stamp), RolledBack(b, t), a, p)
  {
    hide WellFormed, SoundBaseline, DigestsFixSize, RolledBack, Final, Unblockable, CanMakeDirectory, Obstructed, StoredContent;
    BaselineScope(b, p);
    var b', f := b.(stamp := stamp), RolledBack(b, t);
    FinalOf(b, t, p);
    match a
    case CreateDirectory =>
      FinalDirectory(b, t, p);
      UnblockedNowMakeable(b, t, p);
    case Delete =>
      if p in b.cp.directories { FinalDirectory(b, t, p); } else { FinalElsewhere(b, t, p); }
    case RemoveDirectory =>
      if CapturedPath(b, p) { FinalCaptured(b, t, p); } else { FinalElsewhere(b, t, p); }
      ObstacleStays(b, t, p);
    case _ =>
      StampIrrelevant(b, stamp, p);
      SecondRestoreFails(b, t, p);
  }

  lemma SecondRestoreFails(b: Baseline, t: Tree, p: Path)
    requires WellFormed(t) && SoundBaseline(b.host, b.cp) && DigestsFixSize(b.host, b.cp)
    requires !SecondRoundHelps(b, t)
    requires CapturedPath(b, p) && BaselineAction(b.host, b.cp, RolledBack(b, t), p) != None
    ensures Fails(b, RolledBack(b, t), Restore, p)
  {
    hide WellFormed, SoundBaseline, DigestsFixSize, RolledBack, Final, Unblockable, CanMakeDirectory, Obstructed, StoredContent;
    BaselineScope(b, p);
    InBaselineNotRoot(b, p);
    SameNodeSameAction(b, t, RolledBack(b, t), p);
    var f := RolledBack(b, t);
    FinalOf(b, t, p);
    FinalCaptured(b, t, p);
    CapturedIsNoDirectory(b, p);
    ParentInBaseline(b, p);
    if StoredContent(b, p).Ok? {
      RestoredMatches(b, p);
      if !CanMakeDirectory(t, Parent(p)) {
        NotEmptyPath(t, Parent(p));
        UnblockedNowMakeable(b, t, Parent(p));
      }
    }
  }

  lemma NotEmptyPath(t: Tree, d: Path)
    requires !CanMakeDirectory(t, d)
    ensures d != []
  {
  }

  /** Repeating a rollback is a no-op exactly when the first round cleared no swap:
      it is not when a file that replaced a directory was deleted, or a directory
      that replaced a captured file was removed. */
  lemma IdempotentExactly(b: Baseline, t: Tree, stamp: Path -> int)
    requires ReadyForGood(b, t) && DigestsFixSize(b.host, b.cp)
    ensures RolledBack(b.(stamp := stamp), RolledBack(b, t)) == RolledBack(b, t) <==> !SecondRoundHelps(b, t)
  {
    hide WellFormed, SoundBaseline, DigestsFixSize, RolledBack, SecondRoundHelps, Fails;
    if SecondRoundHelps(b, t) {
      SecondRoundChanges(b, t, stamp);
    } else {
      var b', f := b.(stamp := stamp), RolledBack(b, t);
      forall q ensures Get(RolledBack(b', f), q) == Get(f, q) {
        FinalOf(b', f, q);
        forall a | Planned(b.host, b.cp, f, a, q) ensures Fails(b', f, a, q) {
          SecondRoundOnlyFails(b, t, stamp, a, q);
        }
        AllFailed(b', f, q);
      }
      SameLookups(RolledBack(b', f), f);
    }
  }

  lemma AllFailed(b: Baseline, f: Tree, q: Path)
    requires forall a :: Planned(b.host, b.cp, f, a, q) ==> Fails(b, f, a, q)
    ensures Final(b, f, q) == Get(f, q)
  {
    hide Planned;
    assert Planned(b.host, b.cp, f, Recreate, q) ==> Fails(b, f, Recreate, q);
    assert Planned(b.host, b.cp, f, Delete, q) ==> Fails(b, f, Delete, q);
  }

  /** A file that replaced a baseline directory is deleted by the first round; only
      the second recreates the directory. */
  lemma RepeatingCanChange()
    ensures exists b: Baseline, t: Tree ::
              && ReadyForGood(b, t) && DigestsFixSize(b.host, b.cp)
              && RolledBack(b, RolledBack(b, t)) != RolledBack(b, t)
  {
    var h := Rules(c => "", n => false, n => false, n => false);
    var d: Path := ["src"];
    var cp := Checkpoint(map[], {d}, 0, 0, ScanSkips(0, 0, 0));
    var b := Baseline(h, cp, map[], p => 0);
    var t: Tree := map[d := File([], 0, 0, true)];
    assert WellFormed(t);
    assert SoundBaseline(h, cp);
    assert d == d[..1];
    assert Unblockable(b, t, d);
    IdempotentExactly(b, t, b.stamp);
    assert b.(stamp := b.stamp) == b;
  }
}
