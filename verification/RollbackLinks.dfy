/** What becomes of a rollback when a run leaves a link in place of a baseline
    directory: exactly when the report of a round is still complete. */
module RollbackLinks {
  import opened Prelude
  import opened FileTree
  import opened Checkpoint
  import opened Rollback
  import opened RollbackTheory
  import opened RollbackGuarantees

  // ----- what a run reports -----

  ghost predicate FiledAsFailed(failures: seq<Failure>, p: Path) {
    exists a, code :: Failure(p, a, code) in failures
  }

  ghost predicate FiledAsSkipped(plan: Plan, p: Path) {
    exists reason :: Skip(p, reason) in plan.skipped
  }

  /** After the run of a plan, the paths away from the baseline are exactly those
      filed as failed or as skipped. */
  ghost predicate ReportsExactly(b: Baseline, t: Tree, plan: Plan) {
    forall p :: !AtBaseline(b.host, b.cp, Run(b, t, plan).tree, p) <==>
                FiledAsFailed(Run(b, t, plan).failures, p) || FiledAsSkipped(plan, p)
  }

  lemma SkippedIsFiled(b: Baseline, t: Tree, written: set<Path>, plan: Plan, p: Path)
    requires IsPlan(b.host, b.cp, t, written, plan)
    ensures FiledAsSkipped(plan, p) <==> SkippedFor(b.host, b.cp, t, p).Some?
  {
    hide Planned, SkippedFor;
    if SkippedFor(b.host, b.cp, t, p).Some? {
      assert Skip(p, SkippedFor(b.host, b.cp, t, p).value) in plan.skipped;
    }
  }

  lemma FailedIsFiled(b: Baseline, t: Tree, written: set<Path>, plan: Plan, p: Path)
    requires Ready(b, t) && IsPlan(b.host, b.cp, t, written, plan)
    ensures FiledAsFailed(Run(b, t, plan).failures, p) <==> FailsAt(b, t, p)
  {
    hide Ready, IsPlan, Planned, Fails, FailureCode, PredictedFailures, ApplyItems;
    var items := OrderedActions(plan.items);
    ApplyPlanExactly(b, t, written, plan);
    PlanIsSchedule(b, t, written, plan);
    AskedIsPlanned(b, t, items);
    if FiledAsFailed(Run(b, t, plan).failures, p) {
      var a, code :| Failure(p, a, code) in Run(b, t, plan).failures;
      FailedOnce(b, t, items, a, p, code);
    }
    if FailsAt(b, t, p) {
      var a :| Planned(b.host, b.cp, t, a, p) && Fails(b, t, a, p);
      FailedOnce(b, t, items, a, p, FailureCode(b, t, a, p));
    }
  }

  lemma PlainReports(b: Baseline, t: Tree, written: set<Path>, plan: Plan)
    requires Ready(b, t) && DigestsFixSize(b.host, b.cp) && IsPlan(b.host, b.cp, t, written, plan)
    ensures ReportsExactly(b, t, plan)
  {
    hide Ready, DigestsFixSize, IsPlan, ApplyItems, AtBaseline, SkippedFor, FailsAt, RolledBack;
    ApplyPlanExactly(b, t, written, plan);
    assert Run(b, t, plan).tree == RolledBack(b, t);
    forall p ensures !AtBaseline(b.host, b.cp, RolledBack(b, t), p) <==>
                     FiledAsFailed(Run(b, t, plan).failures, p) || FiledAsSkipped(plan, p) {
      ReportedExactly(b, t, p);
      FailedIsFiled(b, t, written, plan, p);
      SkippedIsFiled(b, t, written, plan, p);
    }
  }

  // ----- a link to a directory is taken for the directory -----

  ghost predicate Extends(t: Tree, s: Tree) {
    forall q :: q in t ==> q in s && s[q] == t[q]
  }

  /** Everything new is a directory. */
  ghost predicate AddsDirectories(t: Tree, s: Tree) {
    forall q :: q in s && q !in t ==> s[q] == Dir
  }

  lemma ActionCreates(b: Baseline, it: Item, s: Tree)
    requires it.action == CreateDirectory
    ensures Extends(s, ApplyAction(b, it, s).tree) && AddsDirectories(s, ApplyAction(b, it, s).tree)
  {
    if Made(s, it.path).Some? {
      MadeExtends(s, it.path, []);
    }
  }

  lemma ActionKeepsLeaf(b: Baseline, it: Item, s: Tree, d: Path)
    requires d in s && !s[d].Dir? && Phase(it.action) <= 1
    ensures var s' := ApplyAction(b, it, s).tree; d in s' && !s'[d].Dir?
  {
    hide Addressable, Located;
    if it.action == CreateDirectory {
      ActionCreates(b, it, s);
    } else {
      forall r {
        RestoreKeepsLeaf(b, it.path, r, s, d);
      }
      hide RestoreAt;
    }
  }

  lemma RestoreKeepsLeaf(b: Baseline, p: Path, r: Path, s: Tree, d: Path)
    requires d in s && !s[d].Dir?
    ensures var s' := RestoreAt(b, p, r, s).tree; d in s' && !s'[d].Dir?
  {
    hide StoredContent;
    if Made(s, Parent(p)).Some? {
      MadeExtends(s, Parent(p), []);
    }
  }

  lemma ActionOnlyRemoves(b: Baseline, it: Item, s: Tree)
    requires Phase(it.action) >= 2
    ensures Extends(ApplyAction(b, it, s).tree, s)
  {
    hide Addressable;
  }

  /** The tree once the first `k` actions are applied. */
  function TreeAfter(b: Baseline, t: Tree, items: seq<Item>, k: nat): Tree
    requires k <= |items|
  {
    ApplyItems(b, items[..k], Start(t)).tree
  }

  lemma TreeNext(b: Baseline, t: Tree, items: seq<Item>, k: nat)
    requires k < |items|
    ensures TreeAfter(b, t, items, k + 1) == ApplyAction(b, items[k], TreeAfter(b, t, items, k)).tree
  {
    hide ApplyAction;
    assert items[..k + 1][..k] == items[..k];
  }

  lemma {:induction false} CreationsExtend(b: Baseline, t: Tree, items: seq<Item>, i: nat, k: nat)
    requires i <= k <= |items| && forall j :: 0 <= j < k ==> items[j].action == CreateDirectory
    ensures Extends(TreeAfter(b, t, items, i), TreeAfter(b, t, items, k))
    ensures AddsDirectories(TreeAfter(b, t, items, i), TreeAfter(b, t, items, k))
    decreases k
  {
    hide ApplyAction, ApplyItems;
    if k > i {
      CreationsExtend(b, t, items, i, k - 1);
      TreeNext(b, t, items, k - 1);
      ActionCreates(b, items[k - 1], TreeAfter(b, t, items, k - 1));
    }
  }

  lemma NothingApplied(b: Baseline, t: Tree, items: seq<Item>)
    ensures TreeAfter(b, t, items, 0) == t
  {
    assert items[..0] == [];
  }

  /** A path taken by something that is no directory never becomes one in the same round. */
  lemma {:induction false} LeafStaysLeaf(b: Baseline, t: Tree, items: seq<Item>, k: nat, d: Path)
    requires InActionOrder(items) && k <= |items| && d in t && !t[d].Dir?
    ensures d in TreeAfter(b, t, items, k) ==> !TreeAfter(b, t, items, k)[d].Dir?
    ensures (forall j :: 0 <= j < k ==> Phase(items[j].action) <= 1) ==> d in TreeAfter(b, t, items, k)
  {
    hide ApplyAction;
    if k > 0 {
      hide ApplyItems;
      LeafStaysLeaf(b, t, items, k - 1, d);
      TreeNext(b, t, items, k - 1);
      var s := TreeAfter(b, t, items, k - 1);
      if Phase(items[k - 1].action) <= 1 {
        forall j | 0 <= j < k - 1 ensures Phase(items[j].action) <= 1 {
          assert !Before(items[k - 1], items[j]);
        }
        ActionKeepsLeaf(b, items[k - 1], s, d);
      } else {
        ActionOnlyRemoves(b, items[k - 1], s);
      }
    } else {
      assert items[..0] == [];
    }
  }

  /** A filed failure belongs to an action that failed in its turn. */
  lemma {:induction false} FailureHasCause(b: Baseline, t: Tree, items: seq<Item>, k: nat, f: Failure)
    requires k <= |items| && f in ApplyItems(b, items[..k], Start(t)).failures
    ensures exists j :: 0 <= j < k && items[j].path == f.path && items[j].action == f.action &&
                        ApplyAction(b, items[j], TreeAfter(b, t, items, j)).error.Some?
  {
    hide ApplyAction;
    assert items[..0] == [];
    assert items[..k][..k - 1] == items[..k - 1];
    var before := ApplyItems(b, items[..k - 1], Start(t));
    if f in before.failures {
      FailureHasCause(b, t, items, k - 1, f);
    } else {
      assert items[k - 1].path == f.path && items[k - 1].action == f.action;
      assert ApplyAction(b, items[k - 1], TreeAfter(b, t, items, k - 1)).error.Some?;
    }
  }

  /** A directory with its parents in place is located where it is and made already. */
  lemma StandingIsMade(s: Tree, e: Path)
    requires forall i | 1 <= i <= |e| :: e[..i] in s && s[e[..i]] == Dir
    ensures RealPath(s, e) == Some(e) && Made(s, e) == Some(s)
  {
    RealPathWithoutLinks(s, e);
    MadePlain(s, e);
    assert WithDirectory(s, e) == s;
  }

  lemma StandsBelow(t: Tree, s: Tree, d: Path, i: nat)
    requires WellFormed(t) && Extends(t, s) && d in t && 1 <= i <= |Parent(d)|
    ensures Parent(d)[..i] in s && s[Parent(d)[..i]] == Dir
  {
    AncestorsAreDirs(t, Parent(d)[..i], d);
  }

  /** The parents of a node stand as long as nothing is removed, and can be made again. */
  lemma ParentsStand(t: Tree, s: Tree, d: Path)
    requires WellFormed(t) && Extends(t, s) && d in t
    ensures d != [] && Made(s, Parent(d)) == Some(s) && RealPath(s, Parent(d)) == Some(Parent(d))
    ensures Located(s, d) == Some(d)
  {
    assert d != [] by { assert Hangs(t, d); }
    hide *;
    var e := Parent(d);
    forall i | 1 <= i <= |e| ensures e[..i] in s && s[e[..i]] == Dir {
      StandsBelow(t, s, d, i);
    }
    StandingIsMade(s, e);
    LocatedUnder(s, d);
  }

  lemma LocatedUnder(s: Tree, d: Path)
    requires d != [] && RealPath(s, Parent(d)) == Some(Parent(d))
    ensures Located(s, d) == Some(d)
  {
    assert Parent(d) + [d[|d| - 1]] == d;
  }

  /** Creating a directory where a link leads to one succeeds and changes nothing. */
  lemma CreateOverLink(b: Baseline, t: Tree, s: Tree, d: Path, source: Source)
    requires WellFormed(t) && Extends(t, s) && LinkAt(t, d) && LeadsToDirectory(s, d) && Addressable(d)
    ensures ApplyAction(b, Item(d, CreateDirectory, source), s) == Outcome(s, None)
  {
    hide Addressable, WellFormed;
    ParentsStand(t, s, d);
  }

  /** The link at `d` leads to a directory by the time the directory there is created:
      it does already, or it names a missing baseline directory that is nearer to the
      root and can be made. */
  predicate LeadsInTime(cp: Checkpoint, t: Tree, d: Path)
    requires LinkAt(t, d)
  {
    || LeadsToDirectory(t, d)
    || (t[d].target.Inside? &&
        var x := t[d].target.path; x in cp.directories && CanMakeDirectory(t, x) && |x| < |d|)
  }

  /** A directory nothing is in the way of is made in its turn. */
  lemma CreateMakes(b: Baseline, t: Tree, s: Tree, x: Path, source: Source)
    requires Extends(t, s) && AddsDirectories(t, s) && CanMakeDirectory(t, x) && Addressable(x) && x != []
    ensures IsDir(ApplyAction(b, Item(x, CreateDirectory, source), s).tree, x)
  {
    hide Addressable;
    assert CanMakeDirectory(s, x);
    RealPathWithoutLinks(s, x);
    CanMakeParent(s, x);
    RealPathWithoutLinks(s, Parent(x));
    MadePlain(s, x);
    assert x == x[..|x|];
  }

  lemma TargetIsMade(b: Baseline, t: Tree, items: seq<Item>, j: nat, d: Path)
    requires SoundBaseline(b.host, b.cp) && IsSchedule(b, t, items) && j < |items|
    requires items[j].path == d && items[j].action == CreateDirectory
    requires LinkAt(t, d) && LeadsInTime(b.cp, t, d)
    ensures Extends(t, TreeAfter(b, t, items, j)) && LeadsToDirectory(TreeAfter(b, t, items, j), d)
  {
    hide SoundBaseline, ApplyItems, ApplyAction, Addressable, CanMakeDirectory;
    CreationsFirst(items, j);
    NothingApplied(b, t, items);
    CreationsExtend(b, t, items, 0, j);
    if !LeadsToDirectory(t, d) {
      var x := t[d].target.path;
      assert Planned(b.host, b.cp, t, CreateDirectory, x);
      var i := PlaceOf(b, t, items, CreateDirectory, x);
      EarlierInOrder(items, i, j);
      InBaselineNotRoot(b, x);
      BaselineAddressable(b, x);
      CreationsExtend(b, t, items, 0, i);
      CreateMakes(b, t, TreeAfter(b, t, items, i), x, items[i].source);
      TreeNext(b, t, items, i);
      CreationsExtend(b, t, items, i + 1, j);
    }
  }

  lemma EarlierInOrder(items: seq<Item>, i: nat, j: nat)
    requires InActionOrder(items) && i < |items| && j < |items| && Before(items[i], items[j])
    ensures i < j
  {
  }

  lemma PlaceOf(b: Baseline, t: Tree, items: seq<Item>, a: Action, p: Path) returns (i: nat)
    requires IsSchedule(b, t, items) && Planned(b.host, b.cp, t, a, p)
    ensures i < |items| && items[i].action == a && items[i].path == p
  {
    hide Planned;
    assert (a, p) in Asked(items);
    i :| 0 <= i < |items| && items[i].action == a && items[i].path == p;
  }

  lemma LinkNeverFails(b: Baseline, t: Tree, written: set<Path>, plan: Plan, d: Path)
    requires WellFormed(t) && SoundBaseline(b.host, b.cp) && IsPlan(b.host, b.cp, t, written, plan)
    requires d in b.cp.directories && LinkAt(t, d) && LeadsInTime(b.cp, t, d)
    ensures !FiledAsFailed(Run(b, t, plan).failures, d)
  {
    hide WellFormed, SoundBaseline, ApplyItems, ApplyAction, IsPlan, Planned, LeadsInTime, LeadsToDirectory, Addressable;
    var items := OrderedActions(plan.items);
    PlanIsSchedule(b, t, written, plan);
    assert items[..|items|] == items;
    if FiledAsFailed(Run(b, t, plan).failures, d) {
      var a, code :| Failure(d, a, code) in Run(b, t, plan).failures;
      FailureHasCause(b, t, items, |items|, Failure(d, a, code));
      var j :| 0 <= j < |items| && items[j].path == d && items[j].action == a &&
               ApplyAction(b, items[j], TreeAfter(b, t, items, j)).error.Some?;
      assert Planned(b.host, b.cp, t, a, d);
      NoSkipAtLink(b, t, d);
      TargetIsMade(b, t, items, j, d);
      BaselineAddressable(b, d);
      CreateOverLink(b, t, TreeAfter(b, t, items, j), d, items[j].source);
      assert false;
    }
  }

  lemma CreationsFirst(items: seq<Item>, j: nat)
    requires InActionOrder(items) && j < |items| && items[j].action == CreateDirectory
    ensures forall i :: 0 <= i < j ==> items[i].action == CreateDirectory
  {
    forall i | 0 <= i < j ensures items[i].action == CreateDirectory {
      assert !Before(items[j], items[i]);
    }
  }

  /** So the round reports nothing for it, although a link stands where a directory was. */
  lemma LinkGoesUnreported(b: Baseline, t: Tree, written: set<Path>, plan: Plan, d: Path)
    requires WellFormed(t) && SoundBaseline(b.host, b.cp) && IsPlan(b.host, b.cp, t, written, plan)
    requires d in b.cp.directories && LinkAt(t, d) && LeadsInTime(b.cp, t, d)
    ensures !AtBaseline(b.host, b.cp, Run(b, t, plan).tree, d)
    ensures !FiledAsFailed(Run(b, t, plan).failures, d) && !FiledAsSkipped(plan, d)
  {
    hide WellFormed, SoundBaseline, ApplyItems, SkippedFor, IsPlan, FiledAsFailed, FiledAsSkipped, LeadsInTime;
    var items := OrderedActions(plan.items);
    LeafStaysLeaf(b, t, items, |items|, d);
    assert items[..|items|] == items;
    InBaselineNotRoot(b, d);
    NoSkipAtLink(b, t, d);
    SkippedIsFiled(b, t, written, plan, d);
    LinkNeverFails(b, t, written, plan, d);
  }

  lemma NoSkipAtLink(b: Baseline, t: Tree, d: Path)
    requires SoundBaseline(b.host, b.cp) && d in b.cp.directories && LinkAt(t, d)
    ensures SkippedFor(b.host, b.cp, t, d) == None
    ensures forall a :: Planned(b.host, b.cp, t, a, d) ==> a == CreateDirectory
  {
  }

  // ----- the exact condition -----

  /** A link on a baseline directory that names a missing baseline directory which can be
      made names one that is nearer to the root, and so made first. */
  predicate LinksInOrder(cp: Checkpoint, t: Tree) {
    forall d | d in cp.directories :: LinkAt(t, d) && t[d].target.Inside? ==>
      var x := t[d].target.path;
      !IsDir(t, x) && x in cp.directories && CanMakeDirectory(t, x) ==> |x| < |d|
  }

  /** The report of a round is complete exactly when no link in place of a baseline
      directory leads to a directory, before the round or once missing directories are made. */
  lemma CompleteReportExactly(b: Baseline, t: Tree, written: set<Path>, plan: Plan)
    requires WellFormed(t) && SoundBaseline(b.host, b.cp) && DigestsFixSize(b.host, b.cp)
    requires IsPlan(b.host, b.cp, t, written, plan) && LinksInOrder(b.cp, t)
    ensures ReportsExactly(b, t, plan) <==> PlainLinks(b.cp, t)
  {
    hide WellFormed, SoundBaseline, DigestsFixSize, IsPlan, AtBaseline, ApplyItems, CanMakeDirectory;
    if PlainLinks(b.cp, t) {
      PlainReports(b, t, written, plan);
    } else {
      var d :| d in b.cp.directories && LinkAt(t, d) && !LeafLink(b.cp, t, t[d].target);
      assert LeadsInTime(b.cp, t, d);
      LinkGoesUnreported(b, t, written, plan, d);
    }
  }

  // ----- what is written through a link -----

  /** Writing a file back below a link to a directory writes into that directory. */
  lemma RestoreThroughLink(b: Baseline, s: Tree, d: Path, name: string, a: Action)
    requires WellFormed(s) && LinkAt(s, d) && s[d].target.Inside? && IsDir(s, s[d].target.path)
    requires a == Restore || a == Recreate
    requires Addressable(d + [name]) && StoredContent(b, d + [name]).Ok?
    ensures var r := s[d].target.path + [name];
            ApplyAction(b, Item(d + [name], a, Other), s) ==
            if IsDir(s, r) then Outcome(s, Some(WriteError))
            else Outcome(s[r := RestoredFile(b, d + [name])], None)
  {
    hide WellFormed, StoredContent, RestoredFile, Addressable;
    var p, x := d + [name], s[d].target.path;
    assert Parent(p) == d;
    MadeOverLink(s, d);
    assert Located(s, p) == Some(x + [name]);
    assert Parent(x + [name]) == x;
  }

  lemma MadeOverLink(s: Tree, d: Path)
    requires WellFormed(s) && LinkAt(s, d) && s[d].target.Inside? && IsDir(s, s[d].target.path)
    ensures Made(s, d) == Some(s) && RealPath(s, d) == Some(s[d].target.path)
  {
    hide WellFormed;
    ParentsStand(s, s, d);
    assert Parent(d) + [d[|d| - 1]] == d;
  }

  // ----- an example -----

  /** Two directories with a file of the same name in each; the digest of a content is
      one character for each of its first two bytes. */
  datatype Example = Example(lib: string, src: string, file: string)
  {
    ghost predicate Valid() {
      lib != src && Addressable([lib, file]) && Addressable([src, file])
    }

    function Digest(content: Bytes): string {
      if |content| == 0 then "" else if |content| == 1 then "x" else "xx"
    }

    function Entries(): map<Path, Entry> {
      map[[lib, file] := Entry(0, 0, 0, Captured("")), [src, file] := Entry(1, 0, 0, Captured("x"))]
    }

    function Base(): Baseline {
      Baseline(Rules((c: Bytes) => Digest(c), n => false, n => false, n => false),
               Checkpoint(Entries(), {[lib], [src]}, 1, 2, ScanSkips(0, 0, 0)),
               map["" := [], "x" := [1]], p => 0)
    }

    /** A run replaced `src` by a link to `lib`, which it left as it was. */
    function Linked(): Tree {
      map[[lib] := Dir, [lib, file] := File([], 0, 0, true), [src] := Link(Inside([lib]))]
    }

    function Repair(): Plan {
      Plan([Item([src], CreateDirectory, Other), Item([src, file], Recreate, Other)], [])
    }
  }

  lemma LinkedIsTree(x: Example)
    requires x.Valid()
    ensures WellFormed(x.Linked())
    ensures [x.lib] in x.Linked() && x.Linked()[[x.lib]] == Dir
    ensures [x.src] in x.Linked() && x.Linked()[[x.src]] == Link(Inside([x.lib]))
    ensures [x.lib, x.file] in x.Linked() && x.Linked()[[x.lib, x.file]] == File([], 0, 0, true)
  {
    var t := x.Linked();
    assert [x.lib][0] != [x.src][0];
    assert Parent([x.lib, x.file]) == [x.lib];
    assert Hangs(t, [x.lib]) && Hangs(t, [x.src]) && Hangs(t, [x.lib, x.file]);
  }

  lemma BaseShape(x: Example)
    requires x.Valid()
    ensures BaselineShape(x.Base().host, x.Base().cp)
  {
    var b := x.Base();
    assert Parent([x.lib, x.file]) == [x.lib] && Parent([x.src, x.file]) == [x.src];
    assert HasBaselineParent(b.cp, [x.lib]) && HasBaselineParent(b.cp, [x.src]);
    assert HasBaselineParent(b.cp, [x.lib, x.file]) && HasBaselineParent(b.cp, [x.src, x.file]);
    assert forall p :: !SensitivePath(b.host, p) && Scoped(b.host, p);
  }

  lemma BaseIsSound(x: Example)
    requires x.Valid()
    ensures SoundBaseline(x.Base().host, x.Base().cp) && DigestsFixSize(x.Base().host, x.Base().cp)
  {
    hide BaselineShape;
    BaseShape(x);
    assert [x.lib, x.file][0] == [x.lib][0] && [x.src, x.file][0] == [x.src][0];
    assert Addressable([x.lib]) && Addressable([x.src]);
  }

  lemma RepairPlanned(x: Example, a: Action, p: Path)
    requires x.Valid()
    ensures Planned(x.Base().host, x.Base().cp, x.Linked(), a, p) <==>
            (a == CreateDirectory && p == [x.src]) || (a == Recreate && p == [x.src, x.file])
    ensures SkippedFor(x.Base().host, x.Base().cp, x.Linked(), p) == None
  {
    var b, t := x.Base(), x.Linked();
    assert !SensitivePath(b.host, p);
    assert Scoped(b.host, p) && Scoped(b.host, Parent(p));
    assert [x.lib][0] != [x.src][0] && [x.lib, x.file][0] != [x.src, x.file][0];
    assert [x.src, x.file] !in t;
  }

  lemma RepairIsPlan(x: Example)
    requires x.Valid()
    ensures IsPlan(x.Base().host, x.Base().cp, x.Linked(), {}, x.Repair())
  {
    hide Planned, SkippedFor;
    var h, cp, t, plan := x.Base().host, x.Base().cp, x.Linked(), x.Repair();
    forall it ensures it in plan.items <==>
                      Planned(h, cp, t, it.action, it.path) && it.source == SourceOf({}, it.action, it.path) {
      RepairPlanned(x, it.action, it.path);
    }
    forall s ensures s in plan.skipped <==> SkippedFor(h, cp, t, s.path) == Some(s.reason) {
      RepairPlanned(x, Restore, s.path);
    }
  }

  lemma InOrderAlready(a: Item, b: Item)
    requires Before(a, b) && !Before(b, a)
    ensures OrderedActions([a, b]) == [a, b]
  {
    var ordered := OrderedActions([a, b]);
    assert NoDuplicates([a, b]);
    assert a != b && ordered[0] != ordered[1];
    assert ordered[0] in [a, b] && ordered[1] in [a, b];
    assert !Before(ordered[1], ordered[0]);
    assert ordered[0] == a && ordered[1] == b;
  }

  lemma TwoActions(b: Baseline, x: Item, y: Item, s: Progress)
    ensures ApplyItems(b, [x, y], s) == ApplyNext(b, y, ApplyNext(b, x, s))
  {
    hide ApplyNext;
    assert [x, y][..1] == [x] && [x][..0] == [];
    assert ApplyItems(b, [x][..0], s) == s;
    assert ApplyItems(b, [x], s) == ApplyNext(b, x, ApplyItems(b, [x][..0], s));
    assert ApplyItems(b, [x, y], s) == ApplyNext(b, y, ApplyItems(b, [x, y][..1], s));
  }

  lemma RestoredContent(x: Example)
    requires x.Valid()
    ensures StoredContent(x.Base(), [x.src, x.file]) == Ok([1])
    ensures var file := RestoredFile(x.Base(), [x.src, x.file]); file.File? && file.content == [1]
  {
    assert [x.lib, x.file][0] != [x.src, x.file][0];
    assert [x.src, x.file] in x.Base().cp.entries;
  }

  lemma LinkedRun(x: Example)
    requires x.Valid()
    ensures Run(x.Base(), x.Linked(), x.Repair()).failures == []
    ensures Get(Run(x.Base(), x.Linked(), x.Repair()).tree, [x.lib, x.file]) ==
            Some(RestoredFile(x.Base(), [x.src, x.file]))
  {
    hide ApplyAction, ApplyItems, WellFormed, RestoredFile, Addressable, StoredContent;
    var b, t := x.Base(), x.Linked();
    var create, recreate := Item([x.src], CreateDirectory, Other), Item([x.src, x.file], Recreate, Other);
    LinkedIsTree(x);
    RestoredContent(x);
    InOrderAlready(create, recreate);
    AddressableParent(x);
    CreateOverLink(b, t, t, [x.src], Other);
    assert [x.src] + [x.file] == [x.src, x.file] && [x.lib] + [x.file] == [x.lib, x.file];
    RestoreThroughLink(b, t, [x.src], x.file, Recreate);
    TwoActions(b, create, recreate, Start(t));
  }

  lemma AddressableParent(x: Example)
    requires x.Valid()
    ensures Addressable([x.src])
  {
    assert [x.src][0] == [x.src, x.file][0];
  }

  /** Nothing fails and nothing was planned for the file in `lib`, and yet it is overwritten. */
  lemma LinkedDirectoryOverwritten(x: Example)
    requires x.Valid()
    ensures var b, t, plan := x.Base(), x.Linked(), x.Repair();
            && WellFormed(t) && SoundBaseline(b.host, b.cp) && DigestsFixSize(b.host, b.cp)
            && IsPlan(b.host, b.cp, t, {}, plan)
            && Run(b, t, plan).failures == [] && plan.skipped == []
            && (forall a :: !Planned(b.host, b.cp, t, a, [x.lib, x.file]))
            && Get(Run(b, t, plan).tree, [x.lib, x.file]) != Get(t, [x.lib, x.file])
  {
    hide WellFormed, SoundBaseline, DigestsFixSize, IsPlan, Planned, Run, RestoredFile;
    LinkedIsTree(x);
    BaseIsSound(x);
    RepairIsPlan(x);
    LinkedRun(x);
    forall a ensures !Planned(x.Base().host, x.Base().cp, x.Linked(), a, [x.lib, x.file]) {
      RepairPlanned(x, a, [x.lib, x.file]);
      assert [x.lib, x.file][0] != [x.src, x.file][0] && |[x.lib, x.file]| != |[x.src]|;
    }
    RestoredContent(x);
    assert x.Linked()[[x.lib, x.file]].content == [];
    assert RestoredFile(x.Base(), [x.src, x.file]).content != [];
  }
}
