/** What applying a rollback plan does to an arbitrary workspace tree: the exact
    final tree and the exact failures, in terms of the tree the plan was made of. */
module RollbackTheory {
  import opened Prelude
  import opened FileTree
  import opened Checkpoint
  import opened Rollback

  // ----- the shape of a baseline -----

  predicate HasBaselineParent(cp: Checkpoint, p: Path) {
    p != [] && (Parent(p) == [] || Parent(p) in cp.directories)
  }

  /** Entries and directories form a tree of in-scope names, entries are leaves,
      and exactly the sensitive paths are recorded as sensitive. */
  ghost predicate BaselineShape(h: Rules, cp: Checkpoint) {
    && (forall p {:trigger HasBaselineParent(cp, p)} :: p in cp.entries || p in cp.directories ==> HasBaselineParent(cp, p))
    && (forall p :: p in cp.directories ==> Scoped(h, p) && p !in cp.entries)
    && (forall p :: p in cp.entries ==> (cp.entries[p].state.Sensitive? <==> SensitivePath(h, p)))
  }

  /** A baseline that was captured and can be loaded. */
  ghost predicate SoundBaseline(h: Rules, cp: Checkpoint) {
    BaselineShape(h, cp) && Loadable(cp)
  }

  lemma BaselineIsSound(h: Rules, limits: Limits, t: Tree, cp: Checkpoint, blobs: Blobs)
    requires WellFormed(t) && BaselineOf(h, limits, t, cp, blobs)
    ensures BaselineShape(h, cp)
  {
    hide ContentAddressed, Refers;
    forall p | p in cp.entries || p in cp.directories ensures HasBaselineParent(cp, p) {
      assert Hangs(t, p);
      ScopedParent(h, p);
    }
  }

  lemma {:induction false} BaselineAncestors(h: Rules, cp: Checkpoint, p: Path, q: Path)
    requires BaselineShape(h, cp)
    requires p in cp.entries || p in cp.directories
    requires q != [] && q < p
    ensures q in cp.directories
    decreases |p|
  {
    assert HasBaselineParent(cp, p);
    if q != Parent(p) {
      assert q < Parent(p);
      BaselineAncestors(h, cp, Parent(p), q);
    }
  }

  lemma NothingBelowNewDirectory(h: Rules, cp: Checkpoint, p: Path, q: Path)
    requires BaselineShape(h, cp)
    requires p != [] && p !in cp.directories && p < q
    ensures q !in cp.entries && q !in cp.directories
  {
    if q in cp.entries || q in cp.directories {
      BaselineAncestors(h, cp, q, p);
    }
  }

  // ----- exact failures -----

  /** A link that leads to no directory, neither before the rollback nor once the
      baseline directories that can be made are made again. */
  predicate LeafLink(cp: Checkpoint, t: Tree, target: LinkTarget) {
    match target
    case Inside(x) => !IsDir(t, x) && (x in cp.directories ==> !CanMakeDirectory(t, x))
    case Outside(directory) => !directory
  }

  /** No link to a directory stands where the baseline has a directory. */
  predicate PlainLinks(cp: Checkpoint, t: Tree) {
    forall d | d in cp.directories :: LinkAt(t, d) ==> LeafLink(cp, t, t[d].target)
  }

  /** What the closed form of a round is proved for: a tree, a baseline that can be
      loaded, and no link to a directory in place of a baseline directory. */
  ghost predicate Ready(b: Baseline, t: Tree) {
    WellFormed(t) && SoundBaseline(b.host, b.cp) && PlainLinks(b.cp, t)
  }

  /** No such link names a missing baseline directory either, which a later round may be
      able to make. */
  predicate StableLinks(cp: Checkpoint, t: Tree) {
    forall d | d in cp.directories :: LinkAt(t, d) && t[d].target.Inside? ==> t[d].target.path !in cp.directories
  }

  /** The same for any number of rounds. */
  ghost predicate ReadyForGood(b: Baseline, t: Tree) {
    Ready(b, t) && StableLinks(b.cp, t)
  }

  /** A node rollback neither deletes nor removes: a link, a special file, a
      sensitive file, an ignored directory, anything inside one, or a name that
      does not pass the path check. */
  predicate Stuck(h: Rules, t: Tree, q: Path) {
    q in t && (!Addressable(q) || (!(FileInScope(h, t, q) && !SensitivePath(h, q)) && !DirInScope(h, t, q)))
  }

  predicate Obstructed(h: Rules, t: Tree, p: Path) {
    exists q | q in t :: p < q && Stuck(h, t, q)
  }

  /** Whether a planned action fails, as a fact about the tree the plan was made of. */
  predicate Fails(b: Baseline, t: Tree, a: Action, p: Path) {
    || !Addressable(p)
    || match a
       case CreateDirectory => !CanMakeDirectory(t, p)
       case Restore => StoredContent(b, p).Err? || !CanMakeDirectory(t, Parent(p)) || IsDir(t, p)
       case Recreate => StoredContent(b, p).Err? || !CanMakeDirectory(t, Parent(p)) || IsDir(t, p)
       case Delete => false
       case RemoveDirectory => Obstructed(b.host, t, p)
  }

  function FailureCode(b: Baseline, t: Tree, a: Action, p: Path): Code {
    if !Addressable(p) then Corrupt
    else if RealPath(t, Parent(p)).None? then PathUnsafe
    else
      match a
      case CreateDirectory => WriteError
      case Restore => if StoredContent(b, p).Err? then StoredContent(b, p).error else WriteError
      case Recreate => if StoredContent(b, p).Err? then StoredContent(b, p).error else WriteError
      case Delete => DeleteError
      case RemoveDirectory => DeleteError
  }

  // ----- the tree after some of the planned actions -----

  predicate WritesBack(b: Baseline, t: Tree, done: set<Question>, q: Path) {
    ((Restore, q) in done || (Recreate, q) in done) && !Fails(b, t, Restore, q)
  }

  predicate MakesDirectory(b: Baseline, t: Tree, done: set<Question>, q: Path) {
    (CreateDirectory, q) in done && !Fails(b, t, CreateDirectory, q)
  }

  predicate TakesAway(b: Baseline, t: Tree, done: set<Question>, q: Path) {
    || ((Delete, q) in done && !Fails(b, t, Delete, q))
    || ((RemoveDirectory, q) in done && !Fails(b, t, RemoveDirectory, q))
  }

  function After(b: Baseline, t: Tree, done: set<Question>, q: Path): Option<Node> {
    if MakesDirectory(b, t, done, q) then Some(Dir)
    else if WritesBack(b, t, done, q) then Some(RestoredFile(b, q))
    else if TakesAway(b, t, done, q) then None
    else Get(t, q)
  }

  ghost predicate Reached(b: Baseline, t: Tree, done: set<Question>, s: Tree) {
    forall q :: Get(s, q) == After(b, t, done, q)
  }

  predicate BeforeQuestion(a: Action, p: Path, a': Action, p': Path) {
    Before(Item(p, a, Other), Item(p', a', Other))
  }

  /** `done` is a down-closed part of the plan and `(a, p)` is next. */
  ghost predicate NextInOrder(b: Baseline, t: Tree, done: set<Question>, a: Action, p: Path) {
    && Planned(b.host, b.cp, t, a, p) && (a, p) !in done
    && (forall a', p' :: (a', p') in done ==>
          Planned(b.host, b.cp, t, a', p') && !BeforeQuestion(a, p, a', p'))
    && (forall a', p' :: Planned(b.host, b.cp, t, a', p') && BeforeQuestion(a', p', a, p) ==> (a', p') in done)
  }

  /** Until removals start, a baseline directory path shows a directory exactly
      when it is not blocked, and its blocking leaf otherwise. */
  lemma BaselineDirectoryState(b: Baseline, t: Tree, done: set<Question>, r: Path)
    requires SoundBaseline(b.host, b.cp) && r in b.cp.directories
    requires forall a', p' :: (a', p') in done ==> Planned(b.host, b.cp, t, a', p')
    requires (Delete, r) !in done
    ensures r in t && !t[r].Dir? ==> After(b, t, done, r) == Some(t[r])
    ensures r in t && t[r].Dir? ==> After(b, t, done, r) == Some(Dir)
    ensures r !in t && (CreateDirectory, r) !in done ==> After(b, t, done, r) == None
    ensures (CreateDirectory, r) in done && CanMakeDirectory(t, r) ==> After(b, t, done, r) == Some(Dir)
  {
    assert r !in b.cp.entries;
    assert r != [] by { assert HasBaselineParent(b.cp, r); }
    assert !WritesBack(b, t, done, r);
    if r in t && !t[r].Dir? {
      assert r[..|r|] == r;
      assert Fails(b, t, CreateDirectory, r);
    }
  }

  /** While directories are being created and files written, a baseline directory
      can be made in the current tree exactly when it could in the original one. */
  lemma CanMakeUnchanged(b: Baseline, t: Tree, done: set<Question>, s: Tree, d: Path)
    requires SoundBaseline(b.host, b.cp) && Reached(b, t, done, s)
    requires d == [] || d in b.cp.directories
    requires forall a', p' :: (a', p') in done ==> Planned(b.host, b.cp, t, a', p') && Phase(a') <= 1
    ensures CanMakeDirectory(s, d) <==> CanMakeDirectory(t, d)
  {
    hide BaselineShape, Loadable, Planned, After;
    forall i | 1 <= i <= |d|
      ensures (d[..i] in s ==> s[d[..i]].Dir?) <==> (d[..i] in t ==> t[d[..i]].Dir?)
    {
      var r := d[..i];
      assert r in b.cp.directories by {
        if r == d { } else { BaselineAncestors(b.host, b.cp, d, r); }
      }
      assert Get(s, r) == After(b, t, done, r);
      BaselineDirectoryState(b, t, done, r);
      if r !in t && (CreateDirectory, r) in done {
        MadeOrMissing(b, t, done, r);
      }
    }
  }

  lemma MadeOrMissing(b: Baseline, t: Tree, done: set<Question>, r: Path)
    requires SoundBaseline(b.host, b.cp) && r in b.cp.directories && r !in t
    requires forall a', p' :: (a', p') in done ==> Planned(b.host, b.cp, t, a', p')
    ensures After(b, t, done, r) == None || After(b, t, done, r) == Some(Dir)
  {
    assert r !in b.cp.entries;
  }

  /** A prefix of a makeable baseline directory is makeable, and stands once its turn has passed. */
  lemma PrefixStands(b: Baseline, t: Tree, done: set<Question>, d: Path, r: Path)
    requires SoundBaseline(b.host, b.cp) && d in b.cp.directories && r != [] && r <= d
    requires CanMakeDirectory(t, d)
    requires forall a', p' :: (a', p') in done ==> Planned(b.host, b.cp, t, a', p') && Phase(a') <= 1
    requires Planned(b.host, b.cp, t, CreateDirectory, r) ==> (CreateDirectory, r) in done
    ensures r in b.cp.directories && CanMakeDirectory(t, r)
    ensures After(b, t, done, r) == Some(Dir)
  {
    hide After;
    if r != d {
      BaselineAncestors(b.host, b.cp, d, r);
    }
    forall i | 1 <= i <= |r| ensures r[..i] in t ==> t[r[..i]].Dir? {
      assert r[..i] == d[..i];
    }
    assert r == d[..|r|];
    BaselineDirectoryState(b, t, done, r);
  }

  lemma BaselineAddressable(b: Baseline, p: Path)
    requires SoundBaseline(b.host, b.cp)
    requires p in b.cp.entries || p in b.cp.directories
    ensures Addressable(p)
  {
  }

  lemma InBaselineNotRoot(b: Baseline, p: Path)
    requires SoundBaseline(b.host, b.cp)
    requires p in b.cp.entries || p in b.cp.directories
    ensures p != []
  {
    assert HasBaselineParent(b.cp, p);
  }

  lemma AfterElsewhere(b: Baseline, t: Tree, done: set<Question>, a: Action, p: Path, q: Path)
    requires q != p
    ensures After(b, t, done + {(a, p)}, q) == After(b, t, done, q)
  {
  }

  lemma CreatePlainly(b: Baseline, t: Tree, done: set<Question>, s: Tree, p: Path)
    requires SoundBaseline(b.host, b.cp)
    requires Reached(b, t, done, s) && NextInOrder(b, t, done, CreateDirectory, p)
    ensures Reached(b, t, done + {(CreateDirectory, p)}, PlainOutcome(b, CreateDirectory, p, s).tree)
    ensures PlainOutcome(b, CreateDirectory, p, s).error ==
            if Fails(b, t, CreateDirectory, p) then Some(WriteError) else None
  {
    hide SoundBaseline, CanMakeDirectory, After;
    var done' := done + {(CreateDirectory, p)};
    forall a', p' | (a', p') in done ensures Phase(a') <= 1 {
      assert !BeforeQuestion(CreateDirectory, p, a', p');
    }
    CanMakeUnchanged(b, t, done, s, p);
    InBaselineNotRoot(b, p);
    assert p[..|p|] == p;
    assert Addressable(p) by { BaselineAddressable(b, p); }
    var s' := PlainOutcome(b, CreateDirectory, p, s).tree;
    forall q ensures Get(s', q) == After(b, t, done', q) {
      assert Get(s, q) == After(b, t, done, q);
      if CanMakeDirectory(t, p) && q in Prefixes(p) {
        if q != p {
          assert BeforeQuestion(CreateDirectory, q, CreateDirectory, p);
        }
        PrefixStands(b, t, done', p, q);
      } else if q != p {
        AfterElsewhere(b, t, done, CreateDirectory, p, q);
      } else {
        FailedLeavesAlone(b, t, done, CreateDirectory, p);
      }
    }
  }

  lemma FailedLeavesAlone(b: Baseline, t: Tree, done: set<Question>, a: Action, p: Path)
    requires Fails(b, t, a, p)
    ensures After(b, t, done + {(a, p)}, p) == After(b, t, done, p)
  {
  }

  /** A captured path shows its original node until the file is written back. */
  lemma CapturedState(b: Baseline, t: Tree, done: set<Question>, a: Action, p: Path)
    requires SoundBaseline(b.host, b.cp) && p in b.cp.entries
    requires a == Restore || a == Recreate
    requires NextInOrder(b, t, done, a, p)
    ensures After(b, t, done, p) == Get(t, p)
    ensures forall a', p' :: (a', p') in done ==> Phase(a') <= 1
    ensures forall r :: Planned(b.host, b.cp, t, CreateDirectory, r) ==> (CreateDirectory, r) in done
  {
    assert p !in b.cp.directories;
    forall a', p' | (a', p') in done ensures Phase(a') <= 1 {
      assert !BeforeQuestion(a, p, a', p');
    }
    forall r | Planned(b.host, b.cp, t, CreateDirectory, r) ensures (CreateDirectory, r) in done {
      assert BeforeQuestion(CreateDirectory, r, a, p);
    }
  }

  lemma RestorePlainly(b: Baseline, t: Tree, done: set<Question>, s: Tree, a: Action, p: Path)
    requires SoundBaseline(b.host, b.cp)
    requires a == Restore || a == Recreate
    requires Reached(b, t, done, s) && NextInOrder(b, t, done, a, p)
    ensures Reached(b, t, done + {(a, p)}, PlainOutcome(b, a, p, s).tree)
    ensures PlainOutcome(b, a, p, s).error ==
            if !Fails(b, t, a, p) then None
            else if StoredContent(b, p).Err? then Some(StoredContent(b, p).error) else Some(WriteError)
  {
    hide SoundBaseline, CanMakeDirectory, After, StoredContent, RestoredFile;
    var done' := done + {(a, p)};
    var d := Parent(p);
    CapturedState(b, t, done, a, p);
    ParentInBaseline(b, p);
    CanMakeUnchanged(b, t, done, s, d);
    assert Get(s, p) == After(b, t, done, p);
    if CanMakeDirectory(t, d) {
      DirectoryStands(b, t, done, s, d);
      if d != [] {
        PrefixStands(b, t, done, d, d);
        assert Get(s, d) == After(b, t, done, d);
      }
    }
    assert Addressable(p) by { BaselineAddressable(b, p); }
    var s' := PlainOutcome(b, a, p, s).tree;
    forall q ensures Get(s', q) == After(b, t, done', q) {
      assert Get(s, q) == After(b, t, done, q);
      if q != p {
        AfterElsewhere(b, t, done, a, p, q);
      } else if Fails(b, t, a, p) {
        FailedLeavesAlone(b, t, done, a, p);
      } else {
        WrittenBack(b, t, done', a, p);
      }
    }
  }

  lemma WrittenBack(b: Baseline, t: Tree, done: set<Question>, a: Action, p: Path)
    requires SoundBaseline(b.host, b.cp) && p in b.cp.entries
    requires a == Restore || a == Recreate
    requires (a, p) in done && !Fails(b, t, a, p)
    requires forall a', p' :: (a', p') in done ==> Planned(b.host, b.cp, t, a', p')
    ensures StoredContent(b, p).Ok? && After(b, t, done, p) == Some(RestoredFile(b, p))
  {
    assert p !in b.cp.directories;
  }

  lemma ParentInBaseline(b: Baseline, p: Path)
    requires SoundBaseline(b.host, b.cp)
    requires p in b.cp.entries || p in b.cp.directories
    ensures p != [] && (Parent(p) == [] || Parent(p) in b.cp.directories)
  {
    assert HasBaselineParent(b.cp, p);
  }

  /** Making the parents of a file again changes nothing: they already stand. */
  lemma DirectoryStands(b: Baseline, t: Tree, done: set<Question>, s: Tree, d: Path)
    requires SoundBaseline(b.host, b.cp) && Reached(b, t, done, s)
    requires d == [] || d in b.cp.directories
    requires CanMakeDirectory(t, d)
    requires forall a', p' :: (a', p') in done ==> Planned(b.host, b.cp, t, a', p') && Phase(a') <= 1
    requires forall r :: Planned(b.host, b.cp, t, CreateDirectory, r) ==> (CreateDirectory, r) in done
    ensures WithDirectory(s, d) == s
  {
    hide SoundBaseline, CanMakeDirectory, Planned, After;
    forall r | r in Prefixes(d) ensures r in s && s[r] == Dir {
      PrefixStands(b, t, done, d, r);
      assert Get(s, r) == After(b, t, done, r);
    }
  }

  /** What was in the tree is still where its path says when its turn comes: its
      parents were directories, and those are only ever removed. */
  lemma StillInPlace(b: Baseline, t: Tree, done: set<Question>, s: Tree, p: Path)
    requires WellFormed(t) && p in t && Reached(b, t, done, s)
    ensures p != [] && Located(s, p) == Some(p)
  {
    assert Hangs(t, p);
    var d := Parent(p);
    forall i | 1 <= i <= |d| ensures !LinkAt(s, d[..i]) {
      AncestorsAreDirs(t, d[..i], p);
      assert Get(s, d[..i]) == After(b, t, done, d[..i]);
    }
    RealPathWithoutLinks(s, d);
    assert d + [p[|p| - 1]] == p;
  }

  lemma DeleteOutcome(b: Baseline, s: Tree, p: Path)
    requires p != [] && Located(s, p) == Some(p) && !IsDir(s, p)
    ensures ApplyAction(b, Item(p, Delete, Other), s) ==
            if Addressable(p) then Outcome(s - {p}, None) else Outcome(s, Some(Corrupt))
  {
  }

  lemma AddedFileStands(b: Baseline, t: Tree, done: set<Question>, s: Tree, p: Path)
    requires p != [] && Reached(b, t, done, s) && NextInOrder(b, t, done, Delete, p)
    ensures !MakesDirectory(b, t, done, p) && !WritesBack(b, t, done, p)
    ensures p in s ==> !s[p].Dir?
  {
    hide Addressable, StoredContent, CanMakeDirectory, Obstructed;
    assert Get(s, p) == After(b, t, done, p);
    assert !MakesDirectory(b, t, done, p) by {
      assert p[..|p|] == p;
      CanMakeLeaf(t, p);
    }
  }

  lemma CanMakeLeaf(t: Tree, p: Path)
    requires p != [] && p in t && !t[p].Dir?
    ensures !CanMakeDirectory(t, p)
  {
    assert p[..|p|] == p;
  }

  lemma DeleteStep(b: Baseline, t: Tree, done: set<Question>, s: Tree, p: Path)
    requires WellFormed(t)
    requires Reached(b, t, done, s) && NextInOrder(b, t, done, Delete, p)
    ensures Reached(b, t, done + {(Delete, p)}, ApplyAction(b, Item(p, Delete, Other), s).tree)
    ensures ApplyAction(b, Item(p, Delete, Other), s).error == if Addressable(p) then None else Some(Corrupt)
  {
    hide ApplyAction, Addressable;
    StillInPlace(b, t, done, s, p);
    AddedFileStands(b, t, done, s, p);
    DeleteOutcome(b, s, p);
    var s' := ApplyAction(b, Item(p, Delete, Other), s).tree;
    var done' := done + {(Delete, p)};
    forall q ensures Get(s', q) == After(b, t, done', q) {
      assert Get(s, q) == After(b, t, done, q);
      if q != p {
        AfterElsewhere(b, t, done, Delete, p, q);
      } else if Fails(b, t, Delete, p) {
        FailedLeavesAlone(b, t, done, Delete, p);
      } else {
        DeletedNow(b, t, done, p);
      }
    }
  }

  lemma DeletedNow(b: Baseline, t: Tree, done: set<Question>, p: Path)
    requires !Fails(b, t, Delete, p)
    requires !WritesBack(b, t, done, p) && !MakesDirectory(b, t, done, p)
    ensures After(b, t, done + {(Delete, p)}, p) == None
  {
  }

  lemma StuckStays(b: Baseline, t: Tree, done: set<Question>, s: Tree, p: Path, q: Path)
    requires SoundBaseline(b.host, b.cp) && Reached(b, t, done, s)
    requires forall a', p' :: (a', p') in done ==> Planned(b.host, b.cp, t, a', p')
    requires p != [] && p !in b.cp.directories && p < q && q in t && Stuck(b.host, t, q)
    ensures q in s
  {
    hide BaselineShape, Loadable, Addressable, Obstructed;
    NothingBelowNewDirectory(b.host, b.cp, p, q);
    assert Get(s, q) == After(b, t, done, q);
  }

  /** What is left below a new directory when its turn comes was there from the start. */
  lemma LeftFromStart(b: Baseline, t: Tree, done: set<Question>, s: Tree, p: Path, q: Path)
    requires SoundBaseline(b.host, b.cp) && Reached(b, t, done, s)
    requires NextInOrder(b, t, done, RemoveDirectory, p)
    requires p != [] && p < q && q in s
    ensures q in t && !TakesAway(b, t, done, q)
    ensures FileInScope(b.host, t, q) && !SensitivePath(b.host, q) ==> (Delete, q) in done
    ensures DirInScope(b.host, t, q) ==> (RemoveDirectory, q) in done
  {
    hide BaselineShape, Loadable, Addressable, Obstructed, FileInScope, DirInScope, SensitivePath;
    NothingBelowNewDirectory(b.host, b.cp, p, q);
    assert Get(s, q) == After(b, t, done, q);
    assert BeforeQuestion(Delete, q, RemoveDirectory, p);
    assert BeforeQuestion(RemoveDirectory, q, RemoveDirectory, p);
    assert !MakesDirectory(b, t, done, q) && !WritesBack(b, t, done, q);
  }

  /** When a new directory's turn comes, what is left below it is what is stuck. */
  lemma RemainderIsStuck(b: Baseline, t: Tree, done: set<Question>, s: Tree, p: Path)
    requires WellFormed(t) && SoundBaseline(b.host, b.cp)
    requires Reached(b, t, done, s) && NextInOrder(b, t, done, RemoveDirectory, p)
    ensures HasEntries(s, p) <==> Obstructed(b.host, t, p)
  {
    assert p != [] by { assert Hangs(t, p); }
    if q :| q in t && p < q && Stuck(b.host, t, q) {
      StuckStays(b, t, done, s, p, q);
    }
    if HasEntries(s, p) {
      hide SoundBaseline, Reached, NextInOrder, Addressable, FileInScope, DirInScope, SensitivePath;
      var q :| q in s && p < q;
      LeftFromStart(b, t, done, s, p, q);
      if !Stuck(b.host, t, q) {
        assert Obstructed(b.host, t, q);
        var r :| r in t && q < r && Stuck(b.host, t, r);
        assert p < r;
      }
    }
  }

  lemma NewDirectoryStands(b: Baseline, t: Tree, done: set<Question>, s: Tree, p: Path)
    requires Reached(b, t, done, s) && NextInOrder(b, t, done, RemoveDirectory, p)
    ensures Get(s, p) == Some(Dir) && Get(t, p) == Some(Dir)
    ensures (Delete, p) !in done && !WritesBack(b, t, done, p) && !MakesDirectory(b, t, done, p)
  {
    hide Addressable, Obstructed, CanMakeDirectory;
    assert Get(s, p) == After(b, t, done, p);
  }

  lemma RemoveOutcome(b: Baseline, s: Tree, p: Path)
    requires p != [] && Located(s, p) == Some(p) && Get(s, p) == Some(Dir)
    ensures ApplyAction(b, Item(p, RemoveDirectory, Other), s) ==
            if !Addressable(p) then Outcome(s, Some(Corrupt))
            else if HasEntries(s, p) then Outcome(s, Some(DeleteError))
            else Outcome(s - {p}, None)
  {
  }

  lemma RemoveStep(b: Baseline, t: Tree, done: set<Question>, s: Tree, p: Path)
    requires WellFormed(t) && SoundBaseline(b.host, b.cp)
    requires Reached(b, t, done, s) && NextInOrder(b, t, done, RemoveDirectory, p)
    ensures Reached(b, t, done + {(RemoveDirectory, p)}, ApplyAction(b, Item(p, RemoveDirectory, Other), s).tree)
    ensures ApplyAction(b, Item(p, RemoveDirectory, Other), s).error ==
            if !Fails(b, t, RemoveDirectory, p) then None
            else if Addressable(p) then Some(DeleteError) else Some(Corrupt)
  {
    hide ApplyAction, SoundBaseline, HasEntries, Obstructed, Addressable;
    RemainderIsStuck(b, t, done, s, p);
    StillInPlace(b, t, done, s, p);
    NewDirectoryStands(b, t, done, s, p);
    RemoveOutcome(b, s, p);
    var s' := ApplyAction(b, Item(p, RemoveDirectory, Other), s).tree;
    var done' := done + {(RemoveDirectory, p)};
    forall q ensures Get(s', q) == After(b, t, done', q) {
      assert Get(s, q) == After(b, t, done, q);
      if q != p {
        AfterElsewhere(b, t, done, RemoveDirectory, p, q);
      } else if Fails(b, t, RemoveDirectory, p) {
        FailedLeavesAlone(b, t, done, RemoveDirectory, p);
      } else {
        RemovedNow(b, t, done, p);
      }
    }
  }

  lemma RemovedNow(b: Baseline, t: Tree, done: set<Question>, p: Path)
    requires !Fails(b, t, RemoveDirectory, p)
    requires !WritesBack(b, t, done, p) && !MakesDirectory(b, t, done, p)
    ensures After(b, t, done + {(RemoveDirectory, p)}, p) == None
  {
  }

  // ----- links on the way -----

  predicate Dead(t: Tree, x: Path) {
    forall q | q in t :: !(x < q)
  }

  /** Nothing appears below a place that is no directory and not one of the baseline. */
  lemma DeadStays(b: Baseline, t: Tree, done: set<Question>, s: Tree, x: Path)
    requires WellFormed(t) && SoundBaseline(b.host, b.cp) && Reached(b, t, done, s)
    requires forall a', p' :: (a', p') in done ==> Planned(b.host, b.cp, t, a', p')
    requires !IsDir(t, x) && (x in b.cp.directories ==> !CanMakeDirectory(t, x))
    ensures Dead(s, x) && !IsDir(s, x)
  {
    assert Get(s, x) == After(b, t, done, x);
    forall q | q in s ensures !(x < q) {
      assert Get(s, q) == After(b, t, done, q);
      if x < q {
        if q in t {
          AncestorsAreDirs(t, x, q);
        } else {
          BaselineAncestors(b.host, b.cp, q, x);
          CanMakePrefix(t, x, q);
          CanMakePrefix(t, x, Parent(q));
        }
      }
    }
  }

  lemma CanMakePrefix(t: Tree, p: Path, q: Path)
    ensures p <= q && CanMakeDirectory(t, q) ==> CanMakeDirectory(t, p)
  {
    if p <= q && CanMakeDirectory(t, q) {
      assert forall i | 1 <= i <= |p| :: p[..i] == q[..i];
    }
  }

  /** Until deletions start, exactly the links the tree had stand on baseline directories. */
  lemma LinkStays(b: Baseline, t: Tree, done: set<Question>, s: Tree, d: Path)
    requires SoundBaseline(b.host, b.cp) && Reached(b, t, done, s) && d in b.cp.directories
    requires forall a', p' :: (a', p') in done ==> Planned(b.host, b.cp, t, a', p') && Phase(a') <= 1
    ensures LinkAt(s, d) <==> LinkAt(t, d)
    ensures LinkAt(t, d) ==> s[d] == t[d]
  {
    hide SoundBaseline, Planned, After;
    assert Get(s, d) == After(b, t, done, d);
    BaselineDirectoryState(b, t, done, d);
    if d !in t {
      MadeOrMissing(b, t, done, d);
    }
  }

  /** A path leads to the same place in both trees: outside, to itself, or below where
      neither has anything. */
  ghost predicate LeadsAlike(s: Tree, t: Tree, d: Path) {
    && RealPath(s, d) == RealPath(t, d)
    && match RealPath(t, d)
       case None => true
       case Some(x) => x == d || (Dead(s, x) && Dead(t, x))
  }

  lemma LeadsAlikeNext(s: Tree, t: Tree, d: Path)
    requires d != [] && LeadsAlike(s, t, Parent(d))
    requires LinkAt(s, d) <==> LinkAt(t, d)
    requires LinkAt(t, d) ==> s[d] == t[d]
    requires LinkAt(t, d) && t[d].target.Inside? ==> Dead(s, t[d].target.path) && Dead(t, t[d].target.path)
    ensures LeadsAlike(s, t, d)
  {
    hide Dead;
    assert Parent(d) + [d[|d| - 1]] == d;
    if RealPath(t, Parent(d)).Some? && RealPath(t, Parent(d)) != Some(Parent(d)) {
      DeadFurther(s, RealPath(t, Parent(d)).value, d[|d| - 1]);
      DeadFurther(t, RealPath(t, Parent(d)).value, d[|d| - 1]);
    }
  }

  /** The same links lead a baseline directory path to the same place, now and before. */
  lemma {:induction false} SameWay(b: Baseline, t: Tree, done: set<Question>, s: Tree, d: Path)
    requires WellFormed(t) && SoundBaseline(b.host, b.cp) && PlainLinks(b.cp, t) && Reached(b, t, done, s)
    requires d == [] || d in b.cp.directories
    requires forall a', p' :: (a', p') in done ==> Planned(b.host, b.cp, t, a', p') && Phase(a') <= 1
    ensures LeadsAlike(s, t, d)
    decreases |d|
  {
    hide WellFormed, SoundBaseline, Reached, Planned, Phase, Dead;
    if d != [] {
      hide LeadsAlike;
      ParentInBaseline(b, d);
      SameWay(b, t, done, s, Parent(d));
      LinkStays(b, t, done, s, d);
      if LinkAt(t, d) && t[d].target.Inside? {
        DeadStays(b, t, done, s, t[d].target.path);
        NothingDone(b, t);
        DeadStays(b, t, {}, t, t[d].target.path);
      }
      LeadsAlikeNext(s, t, d);
    }
  }

  lemma DeadFurther(t: Tree, x: Path, name: string)
    requires Dead(t, x)
    ensures Dead(t, x + [name]) && Follow(t, x + [name]) == Some(x + [name])
  {
    assert x < x + [name];
  }

  lemma PlainWay(b: Baseline, t: Tree, done: set<Question>, s: Tree, d: Path)
    requires WellFormed(t) && SoundBaseline(b.host, b.cp) && PlainLinks(b.cp, t) && Reached(b, t, done, s)
    requires d == [] || d in b.cp.directories
    requires forall a', p' :: (a', p') in done ==> Planned(b.host, b.cp, t, a', p') && Phase(a') <= 1
    ensures PlainOnTheWay(s, d)
  {
    hide WellFormed, SoundBaseline, Reached, Planned, Phase;
    forall i | 1 <= i <= |d| && LinkAt(s, d[..i]) ensures PlainLink(s, d[..i], s[d[..i]].target) {
      var r := d[..i];
      OnTheWay(b, d, r);
      LinkStays(b, t, done, s, r);
      if s[r].target.Inside? {
        var x := s[r].target.path;
        DeadStays(b, t, done, s, x);
        if x < r {
          AncestorsAreDirs(t, x, r);
        }
      }
    }
  }

  lemma OnTheWay(b: Baseline, d: Path, r: Path)
    requires SoundBaseline(b.host, b.cp) && d in b.cp.directories
    requires r != [] && r <= d
    ensures r in b.cp.directories
  {
    if r != d {
      BaselineAncestors(b.host, b.cp, d, r);
    }
  }

  /** What an action on a baseline path does when no link on its way leads to a directory. */
  function PlainOutcome(b: Baseline, a: Action, p: Path, t: Tree): Outcome
    requires a == CreateDirectory || a == Restore || a == Recreate
  {
    if a == CreateDirectory then
      if CanMakeDirectory(t, p) then Outcome(WithDirectory(t, p), None) else Outcome(t, Some(WriteError))
    else
      var content := StoredContent(b, p);
      if content.Err? then Outcome(t, Some(content.error))
      else if !CanMakeDirectory(t, Parent(p)) then Outcome(t, Some(WriteError))
      else
        var t' := WithDirectory(t, Parent(p));
        if IsDir(t', p) || !IsDir(t', Parent(p)) then Outcome(t', Some(WriteError))
        else Outcome(t'[p := RestoredFile(b, p)], None)
  }

  lemma MakeableWithoutLinks(t: Tree, d: Path)
    requires CanMakeDirectory(t, d)
    ensures RealPath(t, d) == Some(d)
  {
    RealPathWithoutLinks(t, d);
  }

  /** Links that lead to no directory change only the code of a failure. */
  lemma OutcomeIsPlain(b: Baseline, a: Action, p: Path, t: Tree)
    requires a == CreateDirectory || a == Restore || a == Recreate
    requires p != [] && Addressable(p)
    requires PlainOnTheWay(t, if a == CreateDirectory then p else Parent(p))
    ensures ApplyAction(b, Item(p, a, Other), t).tree == PlainOutcome(b, a, p, t).tree
    ensures ApplyAction(b, Item(p, a, Other), t).error ==
            if RealPath(t, Parent(p)).None? then Some(PathUnsafe) else PlainOutcome(b, a, p, t).error
  {
    hide Addressable, CanMakeDirectory, WithDirectory, PlainOnTheWay, StoredContent, RestoredFile;
    var d := Parent(p);
    MadePlain(t, if a == CreateDirectory then p else d);
    assert d + [p[|p| - 1]] == p;
    if CanMakeDirectory(t, d) {
      MakeableWithoutLinks(t, d);
    }
    CanMakeParent(t, p);
  }

  /** Creating a baseline directory, or writing a captured file back, in its turn. */
  lemma BaselineStep(b: Baseline, t: Tree, done: set<Question>, s: Tree, a: Action, p: Path)
    requires WellFormed(t) && SoundBaseline(b.host, b.cp) && PlainLinks(b.cp, t)
    requires a == CreateDirectory || a == Restore || a == Recreate
    requires Reached(b, t, done, s) && NextInOrder(b, t, done, a, p)
    ensures Reached(b, t, done + {(a, p)}, ApplyAction(b, Item(p, a, Other), s).tree)
    ensures ApplyAction(b, Item(p, a, Other), s).error ==
            if Fails(b, t, a, p) then Some(FailureCode(b, t, a, p)) else None
  {
    var d := if a == CreateDirectory then p else Parent(p);
    BaselineTurn(b, t, done, a, p);
    hide WellFormed, SoundBaseline, PlainLinks, Reached, NextInOrder, ApplyAction, Planned, Phase;
    hide Addressable, StoredContent;
    ParentInBaseline(b, p);
    BaselineAddressable(b, p);
    PlainWay(b, t, done, s, d);
    SameWay(b, t, done, s, Parent(p));
    OutcomeIsPlain(b, a, p, s);
    if a == CreateDirectory {
      CreatePlainly(b, t, done, s, p);
    } else {
      RestorePlainly(b, t, done, s, a, p);
    }
    if RealPath(t, Parent(p)).None? {
      UnsafeFails(b, t, a, p);
    }
  }

  lemma UnsafeFails(b: Baseline, t: Tree, a: Action, p: Path)
    requires p != [] && RealPath(t, Parent(p)).None?
    requires a == CreateDirectory || a == Restore || a == Recreate
    ensures Fails(b, t, a, p)
  {
    hide CanMakeDirectory;
    CanMakeParent(t, p);
    if CanMakeDirectory(t, Parent(p)) {
      MakeableWithoutLinks(t, Parent(p));
    }
  }

  lemma BaselineTurn(b: Baseline, t: Tree, done: set<Question>, a: Action, p: Path)
    requires SoundBaseline(b.host, b.cp) && NextInOrder(b, t, done, a, p)
    requires a == CreateDirectory || a == Restore || a == Recreate
    ensures p in b.cp.entries || p in b.cp.directories
    ensures a == CreateDirectory ==> p in b.cp.directories
    ensures forall a', p' :: (a', p') in done ==> Planned(b.host, b.cp, t, a', p') && Phase(a') <= 1
  {
    forall a', p' | (a', p') in done ensures Phase(a') <= 1 {
      assert !BeforeQuestion(a, p, a', p');
    }
  }

  lemma ActionStep(b: Baseline, t: Tree, done: set<Question>, s: Tree, it: Item)
    requires WellFormed(t) && SoundBaseline(b.host, b.cp) && PlainLinks(b.cp, t)
    requires Reached(b, t, done, s) && NextInOrder(b, t, done, it.action, it.path)
    ensures Reached(b, t, done + {(it.action, it.path)}, ApplyAction(b, it, s).tree)
    ensures ApplyAction(b, it, s).error ==
            if Fails(b, t, it.action, it.path) then Some(FailureCode(b, t, it.action, it.path)) else None
  {
    hide WellFormed, SoundBaseline, Reached, NextInOrder;
    assert ApplyAction(b, it, s) == ApplyAction(b, Item(it.path, it.action, Other), s);
    match it.action
    case Delete => AddedWay(b, t, done, it.action, it.path); DeleteStep(b, t, done, s, it.path);
    case RemoveDirectory => AddedWay(b, t, done, it.action, it.path); RemoveStep(b, t, done, s, it.path);
    case _ => BaselineStep(b, t, done, s, it.action, it.path);
  }

  lemma AddedWay(b: Baseline, t: Tree, done: set<Question>, a: Action, p: Path)
    requires WellFormed(t) && NextInOrder(b, t, done, a, p) && (a == Delete || a == RemoveDirectory)
    ensures RealPath(t, Parent(p)) == Some(Parent(p))
  {
    var d := Parent(p);
    forall i | 1 <= i <= |d| ensures !LinkAt(t, d[..i]) {
      AncestorsAreDirs(t, d[..i], p);
    }
    RealPathWithoutLinks(t, d);
  }

  // ----- the whole plan -----

  function Asked(items: seq<Item>): set<Question> {
    set it | it in items :: (it.action, it.path)
  }

  /** Every planned action once, in an order the runtime's sort may produce. */
  ghost predicate IsSchedule(b: Baseline, t: Tree, items: seq<Item>) {
    && InActionOrder(items)
    && (forall i, j :: 0 <= i < j < |items| ==> items[i].action != items[j].action || items[i].path != items[j].path)
    && (forall it :: it in items ==> Planned(b.host, b.cp, t, it.action, it.path))
    && (forall a, p :: Planned(b.host, b.cp, t, a, p) ==> (a, p) in Asked(items))
  }

  lemma PlanIsSchedule(b: Baseline, t: Tree, written: set<Path>, plan: Plan)
    requires IsPlan(b.host, b.cp, t, written, plan)
    ensures IsSchedule(b, t, OrderedActions(plan.items))
  {
    hide Planned, SourceOf, SkippedFor;
    var items := OrderedActions(plan.items);
    forall i, j | 0 <= i < j < |items| ensures items[i].action != items[j].action || items[i].path != items[j].path {
      assert items[i] in plan.items && items[j] in plan.items;
    }
    forall a, p | Planned(b.host, b.cp, t, a, p) ensures (a, p) in Asked(items) {
      assert Item(p, a, SourceOf(written, a, p)) in plan.items;
    }
  }

  /** What the result lists are predicted to hold. */
  function PredictedCompleted(b: Baseline, t: Tree, items: seq<Item>): Completed {
    if items == [] then Completed([], [], [], [], [])
    else
      var it := items[|items| - 1];
      var before := PredictedCompleted(b, t, items[..|items| - 1]);
      if Fails(b, t, it.action, it.path) then before else before.Add(it.action, it.path)
  }

  function PredictedFailures(b: Baseline, t: Tree, items: seq<Item>): seq<Failure> {
    if items == [] then []
    else
      var it := items[|items| - 1];
      PredictedFailures(b, t, items[..|items| - 1]) +
      if Fails(b, t, it.action, it.path)
      then [Failure(it.path, it.action, FailureCode(b, t, it.action, it.path))]
      else []
  }

  lemma EarlierNotAfter(b: Baseline, t: Tree, items: seq<Item>, k: nat, a: Action, p: Path)
    requires IsSchedule(b, t, items) && k < |items| && (a, p) in Asked(items[..k])
    ensures Planned(b.host, b.cp, t, a, p) && !BeforeQuestion(items[k].action, items[k].path, a, p)
    ensures (a, p) != (items[k].action, items[k].path)
  {
    hide Planned, Before;
    var j :| 0 <= j < k && items[j].action == a && items[j].path == p;
    assert !Before(items[k], items[j]);
    SourceIrrelevant(items[k], items[j]);
  }

  lemma BeforeIsEarlier(b: Baseline, t: Tree, items: seq<Item>, k: nat, a: Action, p: Path)
    requires IsSchedule(b, t, items) && k < |items|
    requires Planned(b.host, b.cp, t, a, p) && BeforeQuestion(a, p, items[k].action, items[k].path)
    ensures (a, p) in Asked(items[..k])
  {
    hide Planned, Before;
    var j :| 0 <= j < |items| && items[j].action == a && items[j].path == p;
    SourceIrrelevant(items[j], items[k]);
    NotBeforeItself(items[k]);
    assert j < k;
    assert items[j] in items[..k];
  }

  lemma ScheduleNext(b: Baseline, t: Tree, items: seq<Item>, k: nat)
    requires IsSchedule(b, t, items) && k < |items|
    ensures NextInOrder(b, t, Asked(items[..k]), items[k].action, items[k].path)
    ensures Asked(items[..k + 1]) == Asked(items[..k]) + {(items[k].action, items[k].path)}
  {
    hide Planned, Before;
    TakeNext(items, k);
    forall a, p | (a, p) in Asked(items[..k]) {
      EarlierNotAfter(b, t, items, k, a, p);
    }
    forall a, p | Planned(b.host, b.cp, t, a, p) && BeforeQuestion(a, p, items[k].action, items[k].path) {
      BeforeIsEarlier(b, t, items, k, a, p);
    }
  }

  lemma SourceIrrelevant(x: Item, y: Item)
    ensures Before(x, y) <==> BeforeQuestion(x.action, x.path, y.action, y.path)
  {
  }

  lemma NotBeforeItself(x: Item)
    ensures !BeforeQuestion(x.action, x.path, x.action, x.path)
  {
  }

  lemma {:induction false} ApplyPrefix(b: Baseline, t: Tree, items: seq<Item>, k: nat)
    requires WellFormed(t) && SoundBaseline(b.host, b.cp) && PlainLinks(b.cp, t) && IsSchedule(b, t, items)
    requires k <= |items|
    ensures var s := ApplyItems(b, items[..k], Start(t));
            && Reached(b, t, Asked(items[..k]), s.tree)
            && s.completed == PredictedCompleted(b, t, items[..k])
            && s.failures == PredictedFailures(b, t, items[..k])
  {
    hide WellFormed, SoundBaseline, PlainLinks, IsSchedule, NextInOrder, ApplyAction, Fails, FailureCode;
    if k == 0 {
      assert items[..0] == [];
      NothingDone(b, t);
    } else {
      hide Reached;
      ApplyPrefix(b, t, items, k - 1);
      var before := ApplyItems(b, items[..k - 1], Start(t));
      assert items[..k][..k - 1] == items[..k - 1];
      ScheduleNext(b, t, items, k - 1);
      ActionStep(b, t, Asked(items[..k - 1]), before.tree, items[k - 1]);
    }
  }

  lemma NothingDone(b: Baseline, t: Tree)
    ensures Asked([]) == {} && Reached(b, t, {}, t)
  {
  }

  // ----- the closed form -----

  /** The node rollback leaves at `q`, read off the tree the plan was made of. */
  ghost function Final(b: Baseline, t: Tree, q: Path): Option<Node> {
    var h, cp := b.host, b.cp;
    if Planned(h, cp, t, CreateDirectory, q) && !Fails(b, t, CreateDirectory, q) then Some(Dir)
    else if (Planned(h, cp, t, Restore, q) || Planned(h, cp, t, Recreate, q)) && !Fails(b, t, Restore, q) then
      Some(RestoredFile(b, q))
    else if (Planned(h, cp, t, Delete, q) && !Fails(b, t, Delete, q)) ||
            (Planned(h, cp, t, RemoveDirectory, q) && !Fails(b, t, RemoveDirectory, q)) then None
    else Get(t, q)
  }

  /** The tree one complete plan-and-apply round leaves behind. */
  ghost function RolledBack(b: Baseline, t: Tree): Tree {
    map q | q in t.Keys + b.cp.directories + b.cp.entries.Keys && Final(b, t, q).Some? :: Final(b, t, q).value
  }

  /** Whether the round completes: no planned action fails. */
  ghost predicate Completes(b: Baseline, t: Tree) {
    forall a, p :: Planned(b.host, b.cp, t, a, p) ==> !Fails(b, t, a, p)
  }

  lemma FinalOf(b: Baseline, t: Tree, q: Path)
    ensures Get(RolledBack(b, t), q) == Final(b, t, q)
  {
    if q !in t.Keys + b.cp.directories + b.cp.entries.Keys {
      assert Final(b, t, q) == None;
    }
  }

  lemma ReachedFinal(b: Baseline, t: Tree, done: set<Question>, s: Tree)
    requires forall a, p :: (a, p) in done <==> Planned(b.host, b.cp, t, a, p)
    requires Reached(b, t, done, s)
    ensures s == RolledBack(b, t)
  {
    hide RolledBack, Planned, Fails;
    var f := RolledBack(b, t);
    forall q ensures Get(s, q) == Get(f, q) {
      FinalOf(b, t, q);
      assert Get(s, q) == After(b, t, done, q);
    }
    SameLookups(s, f);
  }

  lemma SameLookups(s: Tree, f: Tree)
    requires forall q :: Get(s, q) == Get(f, q)
    ensures s == f
  {
    forall q ensures q in s <==> q in f {
      assert Get(s, q) == Get(f, q);
    }
    forall q | q in s ensures s[q] == f[q] {
      assert Get(s, q) == Get(f, q);
    }
  }

  /** Applying a plan to the tree it was made of leaves exactly `RolledBack`, fails
      exactly where `Fails` says, and files every item in exactly one list. */
  lemma ApplyPlanExactly(b: Baseline, t: Tree, written: set<Path>, plan: Plan)
    requires Ready(b, t)
    requires IsPlan(b.host, b.cp, t, written, plan)
    ensures var items := OrderedActions(plan.items);
            ApplyItems(b, items, Start(t)) ==
            Progress(RolledBack(b, t), PredictedCompleted(b, t, items), PredictedFailures(b, t, items))
  {
    hide WellFormed, SoundBaseline, PlainLinks, IsPlan, Reached, RolledBack, ApplyItems, PredictedCompleted, PredictedFailures;
    var items := OrderedActions(plan.items);
    PlanIsSchedule(b, t, written, plan);
    ApplyPrefix(b, t, items, |items|);
    assert items[..|items|] == items;
    AskedIsPlanned(b, t, items);
    ReachedFinal(b, t, Asked(items), ApplyItems(b, items, Start(t)).tree);
  }

  lemma AskedIsPlanned(b: Baseline, t: Tree, items: seq<Item>)
    requires IsSchedule(b, t, items)
    ensures forall a, p :: (a, p) in Asked(items) <==> Planned(b.host, b.cp, t, a, p)
  {
    hide Planned;
  }
}
