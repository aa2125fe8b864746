/** What a user may rely on when a run is rolled back. */
module RollbackGuarantees {
  import opened Prelude
  import opened FileTree
  import opened Checkpoint
  import opened Rollback
  import opened RollbackTheory

  // ----- one round: plan, then apply to the same tree -----

  lemma {:induction false} CompletedOnce(b: Baseline, t: Tree, items: seq<Item>, a: Action, p: Path)
    ensures p in PredictedCompleted(b, t, items).Of(a) <==> (a, p) in Asked(items) && !Fails(b, t, a, p)
  {
    hide Fails;
    if items != [] {
      var init := items[..|items| - 1];
      CompletedOnce(b, t, init, a, p);
      AskedLast(items);
      AddedTo(PredictedCompleted(b, t, init), items[|items| - 1], a, p);
    }
  }

  lemma AddedTo(c: Completed, it: Item, a: Action, p: Path)
    ensures p in c.Add(it.action, it.path).Of(a) <==> p in c.Of(a) || (a == it.action && p == it.path)
  {
  }

  lemma {:induction false} FailedOnce(b: Baseline, t: Tree, items: seq<Item>, a: Action, p: Path, code: Code)
    ensures Failure(p, a, code) in PredictedFailures(b, t, items) <==>
            (a, p) in Asked(items) && Fails(b, t, a, p) && code == FailureCode(b, t, a, p)
  {
    hide Fails, FailureCode;
    if items != [] {
      var init := items[..|items| - 1];
      var it := items[|items| - 1];
      FailedOnce(b, t, init, a, p, code);
      AskedLast(items);
      var f := Failure(it.path, it.action, FailureCode(b, t, it.action, it.path));
      assert PredictedFailures(b, t, items) ==
             PredictedFailures(b, t, init) + if Fails(b, t, it.action, it.path) then [f] else [];
    }
  }

  lemma AskedLast(items: seq<Item>)
    requires items != []
    ensures var it := items[|items| - 1]; Asked(items) == Asked(items[..|items| - 1]) + {(it.action, it.path)}
  {
    assert items == items[..|items| - 1] + [items[|items| - 1]];
  }

  function Total(c: Completed): nat {
    |c.restored| + |c.recreated| + |c.deleted| + |c.created| + |c.removed|
  }

  lemma {:induction false} FiledExactly(b: Baseline, t: Tree, items: seq<Item>)
    ensures Total(PredictedCompleted(b, t, items)) + |PredictedFailures(b, t, items)| == |items|
  {
    hide Fails, FailureCode;
    if items != [] {
      FiledExactly(b, t, items[..|items| - 1]);
    }
  }

  /** The run of a whole plan on the tree it was made of. */
  function Run(b: Baseline, t: Tree, plan: Plan): Progress {
    ApplyItems(b, OrderedActions(plan.items), Start(t))
  }

  /** The result lists of a round, as the tree before it predicts them. */
  ghost predicate FiledAsPredicted(b: Baseline, t: Tree, plan: Plan, r: RollbackResult) {
    && (forall a, p :: p in r.completed.Of(a) <==> Planned(b.host, b.cp, t, a, p) && !Fails(b, t, a, p))
    && (forall a, p, code :: Failure(p, a, code) in r.failures <==>
          Planned(b.host, b.cp, t, a, p) && Fails(b, t, a, p) && code == FailureCode(b, t, a, p))
    && Total(r.completed) + |r.failures| == |plan.items|
    && (r.failures == [] <==> Completes(b, t))
  }

  /** Load the stored baseline, plan a rollback, and apply the plan to the same
      workspace. A baseline that cannot be loaded changes nothing. */
  method RollBack(ws: Workspace, b: Baseline, written: set<Path>) returns (r: Result<(Plan, RollbackResult), Code>)
    requires WellFormed(ws.tree) && BaselineShape(b.host, b.cp)
    modifies ws
    ensures r.Ok? <==> Loadable(b.cp)
    ensures r.Err? ==> r.error == Corrupt && ws.tree == old(ws.tree)
    ensures r.Ok? ==> IsPlan(b.host, b.cp, old(ws.tree), written, r.value.0)
    ensures r.Ok? ==> r.value.1.skipped == r.value.0.skipped
    ensures r.Ok? ==> Progress(ws.tree, r.value.1.completed, r.value.1.failures) == Run(b, old(ws.tree), r.value.0)
    ensures r.Ok? && PlainLinks(b.cp, old(ws.tree)) ==>
              ws.tree == RolledBack(b, old(ws.tree)) && FiledAsPredicted(b, old(ws.tree), r.value.0, r.value.1)
  {
    hide WellFormed, BaselineShape, Loadable, PlainLinks, IsPlan, FiledAsPredicted, RolledBack, ApplyItems;
    if !Loadable(b.cp) {
      return Err(Corrupt);
    }
    ghost var t := ws.tree;
    var plan := PlanRollback(b.host, b.cp, ws.tree, written);
    PlanAvoidsRoot(b, t, written, plan);
    var result := ApplyRollback(ws, b, plan);
    if PlainLinks(b.cp, t) {
      ApplyPlanExactly(b, t, written, plan);
      RoundResult(b, t, written, plan, result);
    }
    r := Ok((plan, result));
  }

  lemma PlanAvoidsRoot(b: Baseline, t: Tree, written: set<Path>, plan: Plan)
    requires WellFormed(t) && SoundBaseline(b.host, b.cp)
    requires IsPlan(b.host, b.cp, t, written, plan)
    ensures forall it :: it in plan.items ==> it.path != []
  {
    forall it | it in plan.items ensures it.path != [] {
      assert Planned(b.host, b.cp, t, it.action, it.path);
      assert HasBaselineParent(b.cp, it.path) || it.path !in b.cp.entries.Keys + b.cp.directories;
      assert Hangs(t, it.path) || it.path !in t;
    }
  }

  lemma RoundResult(b: Baseline, t: Tree, written: set<Path>, plan: Plan, r: RollbackResult)
    requires IsPlan(b.host, b.cp, t, written, plan)
    requires r.completed == PredictedCompleted(b, t, OrderedActions(plan.items))
    requires r.failures == PredictedFailures(b, t, OrderedActions(plan.items))
    ensures FiledAsPredicted(b, t, plan, r)
  {
    hide IsPlan, Planned, Fails, FailureCode, PredictedCompleted, PredictedFailures, Completes, OrderedActions;
    var items := OrderedActions(plan.items);
    PlanIsSchedule(b, t, written, plan);
    AskedIsPlanned(b, t, items);
    FiledExactly(b, t, items);
    assert |items| == |plan.items|;
    NoFailures(b, t, items);
    forall a, p
      ensures p in r.completed.Of(a) <==> Planned(b.host, b.cp, t, a, p) && !Fails(b, t, a, p)
    {
      CompletedOnce(b, t, items, a, p);
    }
    forall a, p, code
      ensures Failure(p, a, code) in r.failures <==>
              Planned(b.host, b.cp, t, a, p) && Fails(b, t, a, p) && code == FailureCode(b, t, a, p)
    {
      FailedOnce(b, t, items, a, p, code);
    }
  }

  lemma NoFailures(b: Baseline, t: Tree, items: seq<Item>)
    requires forall a, p :: (a, p) in Asked(items) <==> Planned(b.host, b.cp, t, a, p)
    ensures PredictedFailures(b, t, items) == [] <==> Completes(b, t)
  {
    hide Planned, Fails, FailureCode, PredictedFailures;
    var failures := PredictedFailures(b, t, items);
    if failures != [] {
      var f := failures[0];
      assert Failure(f.path, f.action, f.code) in failures;
      FailedOnce(b, t, items, f.action, f.path, f.code);
    }
    if !Completes(b, t) {
      var a, p :| Planned(b.host, b.cp, t, a, p) && Fails(b, t, a, p);
      FailedOnce(b, t, items, a, p, FailureCode(b, t, a, p));
    }
  }

  // ----- the node left at each kind of path -----

  lemma MakeableInWellFormed(t: Tree, d: Path)
    requires WellFormed(t) && IsDir(t, d)
    ensures CanMakeDirectory(t, d)
  {
    forall i | 1 <= i <= |d| && d[..i] in t ensures t[d[..i]].Dir? {
      if i < |d| {
        AncestorsAreDirs(t, d[..i], d);
      } else {
        assert d[..i] == d;
      }
    }
  }

  /** A baseline directory stands, or its blocking file is gone, or what blocks it is left alone. */
  lemma FinalDirectory(b: Baseline, t: Tree, q: Path)
    requires WellFormed(t) && SoundBaseline(b.host, b.cp) && q in b.cp.directories
    ensures Final(b, t, q) ==
            if CanMakeDirectory(t, q) then Some(Dir)
            else if q in t && t[q].File? && !SensitivePath(b.host, q) then None
            else Get(t, q)
  {
    hide CanMakeDirectory, WellFormed;
    assert q !in b.cp.entries;
    ScopedParent(b.host, q);
    if DirInScope(b.host, t, q) {
      MakeableInWellFormed(t, q);
    }
  }

  lemma FinalCaptured(b: Baseline, t: Tree, p: Path)
    requires SoundBaseline(b.host, b.cp) && p in b.cp.entries && b.cp.entries[p].state.Captured?
    ensures Final(b, t, p) ==
            if BaselineAction(b.host, b.cp, t, p) == None then Get(t, p)
            else if !Fails(b, t, Restore, p) then Some(RestoredFile(b, p))
            else if DirInScope(b.host, t, p) && !Obstructed(b.host, t, p) then None
            else Get(t, p)
  {
    assert p !in b.cp.directories;
  }

  lemma FinalElsewhere(b: Baseline, t: Tree, q: Path)
    requires q !in b.cp.directories
    requires q in b.cp.entries ==> !b.cp.entries[q].state.Captured?
    ensures Final(b, t, q) ==
            if !Addressable(q) then Get(t, q)
            else if FileInScope(b.host, t, q) && q !in b.cp.entries && !SensitivePath(b.host, q) then None
            else if DirInScope(b.host, t, q) && !Obstructed(b.host, t, q) then None
            else Get(t, q)
  {
  }

  // ----- what is not restored is exactly what is reported -----

  /** Content with the recorded digest has the recorded size. */
  ghost predicate DigestsFixSize(h: Rules, cp: Checkpoint) {
    forall p, content :: p in cp.entries && cp.entries[p].state == Captured(h.hash(content)) ==>
                           cp.entries[p].size == |content|
  }

  lemma InjectiveFixesSize(h: Rules, limits: Limits, t: Tree, cp: Checkpoint, blobs: Blobs)
    requires Injective(h) && BaselineOf(h, limits, t, cp, blobs)
    ensures DigestsFixSize(h, cp)
  {
    hide ContentAddressed, Refers;
  }

  /** Path `p` holds what the baseline says: the captured bytes, the recorded
      metadata of an uncovered file, no extra file, and a directory exactly where
      the baseline had one. */
  predicate AtBaseline(h: Rules, cp: Checkpoint, f: Tree, p: Path) {
    && (DirInScope(h, f, p) <==> p in cp.directories)
    && (FileInScope(h, f, p) <==> p in cp.entries)
    && (p in cp.entries ==>
          if cp.entries[p].state.Captured? then !ContentDiffers(h, cp.entries[p], f[p])
          else !MetadataDiffers(cp.entries[p], f[p]))
  }

  lemma RestoredMatches(b: Baseline, p: Path)
    requires DigestsFixSize(b.host, b.cp) && StoredContent(b, p).Ok?
    ensures !ContentDiffers(b.host, b.cp.entries[p], RestoredFile(b, p))
  {
    assert b.cp.entries[p].state == Captured(b.host.hash(StoredContent(b, p).value));
  }

  ghost predicate FailsAt(b: Baseline, t: Tree, p: Path) {
    exists a :: Planned(b.host, b.cp, t, a, p) && Fails(b, t, a, p)
  }

  lemma FailsAtCases(b: Baseline, t: Tree, p: Path)
    ensures FailsAt(b, t, p) <==>
            || (p in b.cp.directories && !DirInScope(b.host, t, p) && Fails(b, t, CreateDirectory, p))
            || (p in b.cp.entries && BaselineAction(b.host, b.cp, t, p).Some? && Fails(b, t, Restore, p))
            || (p !in b.cp.directories && DirInScope(b.host, t, p) && Fails(b, t, RemoveDirectory, p))
            || (p !in b.cp.entries && FileInScope(b.host, t, p) && !SensitivePath(b.host, p) && !Addressable(p))
  {
    hide BaselineAction, DirInScope, FileInScope, SensitivePath, Obstructed, Addressable;
    assert Fails(b, t, Delete, p) == !Addressable(p);
    assert Planned(b.host, b.cp, t, Delete, p) <==>
           p !in b.cp.entries && FileInScope(b.host, t, p) && !SensitivePath(b.host, p);
    assert Fails(b, t, Restore, p) == Fails(b, t, Recreate, p);
    if p in b.cp.entries && BaselineAction(b.host, b.cp, t, p).Some? {
      BaselineActions(b, t, p);
      assert Planned(b.host, b.cp, t, Restore, p) || Planned(b.host, b.cp, t, Recreate, p);
    }
    assert Planned(b.host, b.cp, t, CreateDirectory, p) <==> p in b.cp.directories && !DirInScope(b.host, t, p);
    assert Planned(b.host, b.cp, t, RemoveDirectory, p) <==> p !in b.cp.directories && DirInScope(b.host, t, p);
  }

  lemma BaselineActions(b: Baseline, t: Tree, p: Path)
    requires p in b.cp.entries
    ensures BaselineAction(b.host, b.cp, t, p) in {None, Some(Restore), Some(Recreate)}
  {
  }

  lemma ReportedDirectory(b: Baseline, t: Tree, p: Path)
    requires WellFormed(t) && SoundBaseline(b.host, b.cp) && p in b.cp.directories
    ensures !AtBaseline(b.host, b.cp, RolledBack(b, t), p) <==>
            FailsAt(b, t, p) || SkippedFor(b.host, b.cp, t, p).Some?
  {
    hide WellFormed, RolledBack, Final, FailsAt, Obstructed, CanMakeDirectory;
    FinalOf(b, t, p);
    FailsAtCases(b, t, p);
    FinalDirectory(b, t, p);
    ScopedParent(b.host, p);
    assert p !in b.cp.entries;
    if IsDir(t, p) || CanMakeDirectory(t, p) {
      if IsDir(t, p) { MakeableInWellFormed(t, p); }
      InBaselineNotRoot(b, p);
      MakeableLeaf(t, p);
    }
  }

  lemma MakeableLeaf(t: Tree, p: Path)
    requires CanMakeDirectory(t, p) && p != []
    ensures p in t ==> t[p].Dir?
  {
    assert p == p[..|p|];
  }

  lemma ReportedCaptured(b: Baseline, t: Tree, p: Path)
    requires SoundBaseline(b.host, b.cp) && DigestsFixSize(b.host, b.cp)
    requires p in b.cp.entries && b.cp.entries[p].state.Captured?
    ensures !AtBaseline(b.host, b.cp, RolledBack(b, t), p) <==>
            FailsAt(b, t, p) || SkippedFor(b.host, b.cp, t, p).Some?
  {
    hide RolledBack, Final, FailsAt, Obstructed, CanMakeDirectory, DigestsFixSize;
    FinalOf(b, t, p);
    FailsAtCases(b, t, p);
    FinalCaptured(b, t, p);
    ParentInBaseline(b, p);
    assert p !in b.cp.directories;
    if !Fails(b, t, Restore, p) {
      RestoredMatches(b, p);
    }
  }

  /** After a round, the paths away from the baseline are exactly those with a
      failed action and those reported as skipped. */
  lemma ReportedExactly(b: Baseline, t: Tree, p: Path)
    requires Ready(b, t) && DigestsFixSize(b.host, b.cp)
    ensures !AtBaseline(b.host, b.cp, RolledBack(b, t), p) <==>
            FailsAt(b, t, p) || SkippedFor(b.host, b.cp, t, p).Some?
  {
    hide WellFormed, SoundBaseline, DigestsFixSize, RolledBack, Final, FailsAt, Obstructed, Addressable;
    hide CanMakeDirectory, StoredContent;
    FinalOf(b, t, p);
    FailsAtCases(b, t, p);
    var f := RolledBack(b, t);
    if p in b.cp.directories {
      ReportedDirectory(b, t, p);
    } else if p in b.cp.entries && b.cp.entries[p].state.Captured? {
      ReportedCaptured(b, t, p);
    } else {
      FinalElsewhere(b, t, p);
      assert p in f ==> f[p] == t[p];
    }
  }

  // ----- the baseline in terms of the tree that was captured -----

  /** Being at the baseline means holding what the captured tree held: the same
      directories, the same files, and the same bytes in every captured file. */
  lemma BaselineMeansOriginal(h: Rules, limits: Limits, original: Tree, cp: Checkpoint, blobs: Blobs, f: Tree, p: Path)
    requires Injective(h) && BaselineOf(h, limits, original, cp, blobs)
    requires AtBaseline(h, cp, f, p)
    ensures DirInScope(h, f, p) <==> DirInScope(h, original, p)
    ensures FileInScope(h, f, p) <==> FileInScope(h, original, p)
    ensures FileInScope(h, original, p) && Capturable(h, limits, p, original[p]) ==>
              f[p].content == original[p].content && f[p].readable
    ensures FileInScope(h, original, p) && !Capturable(h, limits, p, original[p]) ==>
              |f[p].content| == |original[p].content| && f[p].modified == original[p].modified
  {
    hide ContentAddressed, Refers, SensitivePath;
  }

  /** What a file that was captured is like after a round that did not fail at it: left
      alone if its content was still there, otherwise written back with the content and
      the mode it had, readable and with a new time. */
  ghost predicate BroughtBack(b: Baseline, original: Node, t: Tree, f: Tree, p: Path)
    requires original.File?
  {
    if FileInScope(b.host, t, p) && t[p].content == original.content && t[p].readable
    then Get(f, p) == Some(t[p])
    else Get(f, p) == Some(File(original.content, original.mode, b.stamp(p), true))
  }

  lemma BringsBack(limits: Limits, original: Tree, captured: Blobs, b: Baseline, t: Tree, p: Path)
    requires Ready(b, t) && Injective(b.host) && BaselineOf(b.host, limits, original, b.cp, captured)
    requires FileInScope(b.host, original, p) && Capturable(b.host, limits, p, original[p])
    requires !FailsAt(b, t, p)
    ensures BroughtBack(b, original[p], t, RolledBack(b, t), p)
  {
    hide WellFormed, SoundBaseline, RolledBack, Final, FailsAt, Obstructed, CanMakeDirectory, SensitivePath;
    CapturedExactly(b.host, limits, original, b.cp, captured, p);
    FinalOf(b, t, p);
    FailsAtCases(b, t, p);
    FinalCaptured(b, t, p);
  }

  /** The target theorem: capture a tree, let anything happen to the workspace and
      to the stored blobs that leaves no link to a directory in place of a baseline
      directory, plan and apply. Every path that is neither failed nor skipped holds
      what the captured tree held: a directory for a directory, a file for a file,
      brought back if it is not sensitive, within the size limit and was readable, and
      otherwise of the same size and time. */
  lemma RollbackRestoresOrReports(limits: Limits, original: Tree, captured: Blobs, b: Baseline, t: Tree, p: Path)
    requires WellFormed(original) && WellFormed(t)
    requires Injective(b.host) && BaselineOf(b.host, limits, original, b.cp, captured)
    requires Loadable(b.cp) && PlainLinks(b.cp, t)
    requires !FailsAt(b, t, p) && SkippedFor(b.host, b.cp, t, p) == None
    ensures var h := b.host; var f := RolledBack(b, t);
            && (DirInScope(h, f, p) <==> DirInScope(h, original, p))
            && (FileInScope(h, f, p) <==> FileInScope(h, original, p))
    ensures var f := RolledBack(b, t);
            FileInScope(b.host, original, p) ==>
              if !SensitivePath(b.host, p) && |original[p].content| <= limits.maxFileBytes && original[p].readable
              then BroughtBack(b, original[p], t, f, p) && f[p].content == original[p].content
              else |f[p].content| == |original[p].content| && f[p].modified == original[p].modified
  {
    hide WellFormed, BaselineOf, RolledBack, FailsAt, SkippedFor, AtBaseline, BaselineShape, Injective;
    hide Loadable, PlainLinks, SensitivePath, BroughtBack;
    BaselineIsSound(b.host, limits, original, b.cp, captured);
    InjectiveFixesSize(b.host, limits, original, b.cp, captured);
    ReportedExactly(b, t, p);
    BaselineMeansOriginal(b.host, limits, original, b.cp, captured, RolledBack(b, t), p);
    if FileInScope(b.host, original, p) && Capturable(b.host, limits, p, original[p]) {
      BringsBack(limits, original, captured, b, t, p);
    }
  }

  // ----- what a round leaves alone -----

  /** A path no action was planned for is untouched, whatever happens elsewhere. */
  lemma UnplannedUntouched(b: Baseline, t: Tree, p: Path)
    requires Ready(b, t)
    requires forall a :: !Planned(b.host, b.cp, t, a, p)
    ensures Get(RolledBack(b, t), p) == Get(t, p)
  {
    hide Planned, RolledBack;
    FinalOf(b, t, p);
  }

  /** Links and special files survive unless a captured file is written over them,
      and nothing inside an ignored directory is ever touched. */
  lemma OutOfScopeUntouched(b: Baseline, t: Tree, p: Path)
    requires Ready(b, t) && p in t
    requires !FileInScope(b.host, t, p) && !DirInScope(b.host, t, p)
    requires p in b.cp.entries ==> !b.cp.entries[p].state.Captured? || t[p].Dir?
    ensures Get(RolledBack(b, t), p) == Get(t, p)
  {
    hide RolledBack, WellFormed;
    FinalOf(b, t, p);
    if p in b.cp.directories {
      FinalDirectory(b, t, p);
      ScopedParent(b.host, p);
      if CanMakeDirectory(t, p) {
        InBaselineNotRoot(b, p);
        MakeableLeaf(t, p);
      }
    } else if p in b.cp.entries && b.cp.entries[p].state.Captured? {
      FinalCaptured(b, t, p);
    } else {
      FinalElsewhere(b, t, p);
    }
  }

  /** No sensitive file is written, deleted or recreated. */
  lemma SensitiveFilesUntouched(b: Baseline, t: Tree, p: Path)
    requires Ready(b, t)
    requires SensitivePath(b.host, p)
    ensures p in t && !t[p].Dir? ==> Get(RolledBack(b, t), p) == Get(t, p)
    ensures p in RolledBack(b, t) && !RolledBack(b, t)[p].Dir? ==> Get(t, p) == Get(RolledBack(b, t), p)
  {
    hide RolledBack, WellFormed;
    FinalOf(b, t, p);
    if p in b.cp.directories {
      FinalDirectory(b, t, p);
      InBaselineNotRoot(b, p);
      if CanMakeDirectory(t, p) {
        MakeableLeaf(t, p);
      }
    } else {
      FinalElsewhere(b, t, p);
    }
  }

  /** A sensitive path is untouched exactly unless it is a missing baseline directory
      that can be made again, or a new directory whose removal does not fail. */
  lemma SensitivePathsExactly(b: Baseline, t: Tree, p: Path)
    requires Ready(b, t)
    requires SensitivePath(b.host, p)
    ensures Get(RolledBack(b, t), p) == Get(t, p) <==>
            && !(p in b.cp.directories && p !in t && CanMakeDirectory(t, p))
            && !(p !in b.cp.directories && DirInScope(b.host, t, p) && !Fails(b, t, RemoveDirectory, p))
  {
    hide RolledBack, WellFormed, CanMakeDirectory, Obstructed, Addressable;
    FinalOf(b, t, p);
    if p in b.cp.directories {
      FinalDirectory(b, t, p);
      InBaselineNotRoot(b, p);
      if CanMakeDirectory(t, p) {
        MakeableLeaf(t, p);
      }
    } else {
      FinalElsewhere(b, t, p);
    }
  }

  /** A new, empty directory with a sensitive name is removed. */
  lemma SensitiveDirectoryRemoved()
    ensures exists b: Baseline, t: Tree, p: Path ::
              && Ready(b, t) && SensitivePath(b.host, p)
              && p in t && p !in RolledBack(b, t)
  {
    var h := Rules(c => "", n => n == ".env", n => false, n => false);
    var b := Baseline(h, Checkpoint(map[], {}, 0, 0, ScanSkips(0, 0, 0)), map[], p => 0);
    NewSensitiveDirectory(b, ".env");
  }

  lemma NewSensitiveDirectory(b: Baseline, name: string)
    requires b.cp.entries == map[] && b.cp.directories == {}
    requires b.host.sensitiveName(name) && !b.host.internalName(name) && !b.host.ignoredName(name)
    requires Addressable([name])
    ensures Ready(b, map[[name] := Dir]) && SensitivePath(b.host, [name])
    ensures [name] !in RolledBack(b, map[[name] := Dir])
  {
    hide Addressable;
    var p: Path := [name];
    var t: Tree := map[p := Dir];
    assert Hangs(t, p);
    assert WellFormed(t);
    assert SensitivePath(b.host, p) by { assert b.host.sensitiveName(p[0]); }
    assert Planned(b.host, b.cp, t, RemoveDirectory, p);
    assert !Obstructed(b.host, t, p);
    FinalOf(b, t, p);
  }

  // ----- a round keeps the tree a tree -----

  lemma StaysDirectory(b: Baseline, t: Tree, d: Path, q: Path)
    requires WellFormed(t) && SoundBaseline(b.host, b.cp)
    requires d != [] && d < q && d in t && t[d].Dir?
    requires q in RolledBack(b, t)
    ensures Get(RolledBack(b, t), d) == Some(Dir)
  {
    hide RolledBack, WellFormed;
    FinalOf(b, t, d);
    FinalOf(b, t, q);
    if d in b.cp.directories {
      MakeableInWellFormed(t, d);
      FinalDirectory(b, t, d);
    } else {
      NothingBelowNewDirectory(b.host, b.cp, d, q);
      FinalElsewhere(b, t, q);
      if d in b.cp.entries && b.cp.entries[d].state.Captured? {
        FinalCaptured(b, t, d);
      } else {
        FinalElsewhere(b, t, d);
      }
      if DirInScope(b.host, t, q) && Obstructed(b.host, t, q) {
        var r :| r in t && q < r && Stuck(b.host, t, r);
        assert d < r;
      } else {
        assert Stuck(b.host, t, q);
      }
      assert Obstructed(b.host, t, d);
    }
  }

  lemma RoundKeepsTree(b: Baseline, t: Tree)
    requires WellFormed(t) && SoundBaseline(b.host, b.cp)
    ensures WellFormed(RolledBack(b, t))
  {
    hide RolledBack, WellFormed, SoundBaseline, CanMakeDirectory;
    var f := RolledBack(b, t);
    forall q | q in f ensures Hangs(f, q) {
      FinalOf(b, t, q);
      RoundKeepsParent(b, t, q);
    }
    HangsEverywhere(f);
  }

  /** A round replaces no baseline directory by a link and turns no link into one to a directory. */
  lemma RoundKeepsLinks(b: Baseline, t: Tree)
    requires ReadyForGood(b, t)
    ensures PlainLinks(b.cp, RolledBack(b, t)) && StableLinks(b.cp, RolledBack(b, t))
  {
    hide RolledBack, WellFormed, SoundBaseline, CanMakeDirectory;
    var f := RolledBack(b, t);
    forall d | d in b.cp.directories && LinkAt(f, d)
      ensures LeafLink(b.cp, f, f[d].target)
      ensures f[d].target.Inside? ==> f[d].target.path !in b.cp.directories
    {
      FinalOf(b, t, d);
      FinalDirectory(b, t, d);
      if f[d].target.Inside? {
        FinalOf(b, t, f[d].target.path);
      }
    }
  }

  lemma RoundKeepsReady(b: Baseline, t: Tree)
    requires ReadyForGood(b, t)
    ensures ReadyForGood(b, RolledBack(b, t))
  {
    hide WellFormed, SoundBaseline, PlainLinks, StableLinks;
    RoundKeepsTree(b, t);
    RoundKeepsLinks(b, t);
  }

  lemma HangsEverywhere(f: Tree)
    requires forall q :: q in f ==> Hangs(f, q)
    ensures WellFormed(f)
  {
  }

  lemma RoundKeepsParent(b: Baseline, t: Tree, q: Path)
    requires WellFormed(t) && SoundBaseline(b.host, b.cp)
    requires q in RolledBack(b, t)
    ensures Hangs(RolledBack(b, t), q)
  {
    hide RolledBack, WellFormed, SoundBaseline, CanMakeDirectory;
    FinalOf(b, t, q);
    var d := Parent(q);
    var f := RolledBack(b, t);
    if q in t {
      NotRoot(t, q);
      if d != [] {
        assert d < q;
        StaysDirectory(b, t, d, q);
      }
    } else {
      assert q in b.cp.directories || q in b.cp.entries;
      ParentInBaseline(b, q);
      if d != [] {
        NewNeedsParent(b, t, q);
        FinalOf(b, t, d);
        FinalDirectory(b, t, d);
      }
    }
  }

  lemma NotRoot(t: Tree, q: Path)
    requires WellFormed(t) && q in t
    ensures q != [] && IsDir(t, Parent(q))
  {
    assert Hangs(t, q);
  }

  lemma NewNeedsParent(b: Baseline, t: Tree, q: Path)
    requires SoundBaseline(b.host, b.cp)
    requires q !in t && Final(b, t, q).Some?
    ensures CanMakeDirectory(t, Parent(q))
  {
    if CanMakeDirectory(t, q) {
      var d := Parent(q);
      forall i | 1 <= i <= |d| && d[..i] in t ensures t[d[..i]].Dir? {
        assert d[..i] == q[..i];
      }
    }
  }
}
