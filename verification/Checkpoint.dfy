/** Checkpoint capture, rollback planning and rollback application.

    `Rules` supplies what the model does not look inside: the content digest and
    the name rules that decide which paths are sensitive or out of scope. */
module Checkpoint {
  import opened Prelude
  import opened FileTree

  type Digest = string

  datatype Rules = Rules(
    hash: Bytes -> Digest,
    sensitiveName: string -> bool,
    ignoredName: string -> bool,
    internalName: string -> bool)

  datatype Limits = Limits(maxFileBytes: nat, maxEntries: nat, maxTotalBytes: nat)

  datatype EntryState = Captured(digest: Digest) | Oversize | Sensitive | Unreadable

  datatype Entry = Entry(size: nat, mode: nat, modified: int, state: EntryState)

  datatype ScanSkips = ScanSkips(ignoredDirectories: nat, symlinks: nat, specialFiles: nat)

  datatype Checkpoint = Checkpoint(
    entries: map<Path, Entry>,
    directories: set<Path>,
    capturedBytes: nat,
    blobCount: nat,
    skips: ScanSkips)

  type Blobs = map<Digest, Bytes>

  datatype CaptureError = LimitExceeded

  // ----- scope -----

  predicate SensitivePath(h: Rules, p: Path) {
    exists i | 0 <= i < |p| :: h.sensitiveName(p[i])
  }

  /** A path is sensitive exactly by its own name or below a sensitive path. */
  lemma SensitiveParent(h: Rules, p: Path)
    ensures SensitivePath(h, p) <==>
            p != [] && (SensitivePath(h, Parent(p)) || h.sensitiveName(p[|p| - 1]))
  {
    if p != [] && SensitivePath(h, Parent(p)) {
      var i :| 0 <= i < |Parent(p)| && h.sensitiveName(Parent(p)[i]);
      assert h.sensitiveName(p[i]);
    }
    if SensitivePath(h, p) {
      var i :| 0 <= i < |p| && h.sensitiveName(p[i]);
      if i < |p| - 1 {
        assert h.sensitiveName(Parent(p)[i]);
      }
    }
  }

  /** A directory at `p` is walked: it is not run state and no component is ignored. */
  predicate Scoped(h: Rules, p: Path) {
    && (p != [] ==> !h.internalName(p[0]))
    && forall i | 0 <= i < |p| :: !h.ignoredName(p[i])
  }

  predicate FileInScope(h: Rules, t: Tree, p: Path) {
    p in t && t[p].File? && Scoped(h, Parent(p))
  }

  predicate DirInScope(h: Rules, t: Tree, p: Path) {
    p in t && t[p].Dir? && Scoped(h, p)
  }

  lemma ScopedParent(h: Rules, p: Path)
    ensures Scoped(h, p) ==> Scoped(h, Parent(p))
    ensures Scoped(h, p) <==>
            p == [] || (Scoped(h, Parent(p)) && !h.ignoredName(p[|p| - 1]) && (|p| == 1 ==> !h.internalName(p[0])))
  {
    if p != [] {
      assert forall i | 0 <= i < |Parent(p)| :: Parent(p)[i] == p[i];
    }
  }

  // ----- path order -----

  function PathTextFrom(p: Path): string {
    if p == [] then "" else "/" + p[0] + PathTextFrom(p[1..])
  }

  /** The workspace-relative string the runtime sorts by. */
  function PathText(p: Path): string {
    if p == [] then "" else p[0] + PathTextFrom(p[1..])
  }

  lemma {:induction false} PathTextFromAppends(p: Path, name: string)
    ensures PathTextFrom(p + [name]) == PathTextFrom(p) + "/" + name
  {
    if p == [] {
      assert ([] + [name])[1..] == [];
    } else {
      PathTextFromAppends(p[1..], name);
      assert (p + [name])[1..] == p[1..] + [name];
      ConcatAssociates("/" + p[0], PathTextFrom(p[1..]), "/" + name);
    }
  }

  /** The string of a path is its components with slashes between them. */
  lemma PathTextAppends(p: Path, name: string)
    ensures PathText([name]) == name
    ensures p != [] ==> PathText(p + [name]) == PathText(p) + "/" + name
  {
    assert [name][1..] == [];
    if p != [] {
      hide PathTextFrom;
      PathTextFromAppends(p[1..], name);
      assert (p + [name])[1..] == p[1..] + [name] && (p + [name])[0] == p[0];
      ConcatAssociates(p[0], PathTextFrom(p[1..]), "/" + name);
    }
  }

  predicate PathLeq(p: Path, q: Path) {
    StringLeq(PathText(p), PathText(q))
  }

  lemma PathOrder()
    ensures TotalPreorder(PathLeq)
  {
    forall p, q ensures PathLeq(p, q) || PathLeq(q, p) {
      StringLeqTotal(PathText(p), PathText(q));
    }
    forall p, q, r | PathLeq(p, q) && PathLeq(q, r) ensures PathLeq(p, r) {
      StringLeqTransitive(PathText(p), PathText(q), PathText(r));
    }
  }

  ghost predicate InPathOrder(paths: seq<Path>) {
    SortedBy(paths, PathLeq)
  }

  function SortPaths(paths: seq<Path>): (r: seq<Path>)
    requires NoDuplicates(paths)
    ensures |r| == |paths|
    ensures InPathOrder(r) && NoDuplicates(r)
    ensures forall p :: p in r <==> p in paths
  {
    PathOrder();
    Sorted(paths, PathLeq)
  }

  // ----- scan -----

  function ChildrenOf(t: Tree, d: Path): set<Path> {
    set p | p in t && p != [] && Parent(p) == d
  }

  function IgnoredDirectories(h: Rules, t: Tree): set<Path> {
    set p | p in t && p != [] && t[p].Dir? && Scoped(h, Parent(p)) && !(|p| == 1 && h.internalName(p[0])) &&
            h.ignoredName(p[|p| - 1])
  }

  function LinksInScope(h: Rules, t: Tree): set<Path> {
    set p | p in t && t[p].Link? && Scoped(h, Parent(p))
  }

  function SpecialsInScope(h: Rules, t: Tree): set<Path> {
    set p | p in t && t[p].Special? && Scoped(h, Parent(p))
  }

  ghost predicate ListsFiles(h: Rules, t: Tree, files: seq<Path>) {
    NoDuplicates(files) && forall p :: p in files <==> FileInScope(h, t, p)
  }

  ghost predicate ListsDirectories(h: Rules, t: Tree, directories: seq<Path>) {
    NoDuplicates(directories) && forall p :: p in directories <==> DirInScope(h, t, p)
  }

  /** What the walk has listed once it has examined exactly the nodes `seen`. */
  ghost predicate Walked(h: Rules, t: Tree, seen: set<Path>, files: seq<Path>, directories: seq<Path>) {
    && NoDuplicates(files) && (forall p :: p in files <==> p in seen && FileInScope(h, t, p))
    && NoDuplicates(directories) && (forall p :: p in directories <==> p in seen && DirInScope(h, t, p))
  }

  ghost predicate Counted(h: Rules, t: Tree, seen: set<Path>, skips: ScanSkips) {
    && skips.ignoredDirectories == |IgnoredDirectories(h, t) * seen|
    && skips.symlinks == |LinksInScope(h, t) * seen|
    && skips.specialFiles == |SpecialsInScope(h, t) * seen|
  }

  /** Directories still to be listed are those found and not yet visited. */
  ghost predicate Outstanding(pending: seq<Path>, visited: set<Path>, directories: seq<Path>) {
    && NoDuplicates(pending)
    && (forall p :: p in pending <==> p !in visited && (p == [] || p in directories))
    && (forall p :: p in visited ==> p == [] || p in directories)
  }

  predicate ListedBy(t: Tree, visited: set<Path>, p: Path) {
    p in t && Parent(p) in visited
  }

  /** The nodes examined are the entries of the directories visited. */
  ghost predicate Examined(t: Tree, visited: set<Path>, seen: set<Path>) {
    forall p {:trigger ListedBy(t, visited, p)} :: p in seen <==> ListedBy(t, visited, p)
  }

  lemma VisitExamines(t: Tree, visited: set<Path>, current: Path, seen: set<Path>)
    requires WellFormed(t) && Examined(t, visited, seen)
    ensures Examined(t, visited + {current}, seen + ChildrenOf(t, current))
  {
    forall p ensures p in seen + ChildrenOf(t, current) <==> ListedBy(t, visited + {current}, p) {
      assert p in seen <==> ListedBy(t, visited, p);
      assert Hangs(t, p) || p !in t;
    }
  }

  lemma GrowIntersection<T>(a: set<T>, seen: set<T>, x: T)
    requires x !in seen
    ensures |a * (seen + {x})| == |a * seen| + if x in a then 1 else 0
  {
    if x in a {
      assert a * (seen + {x}) == a * seen + {x};
    } else {
      assert a * (seen + {x}) == a * seen;
    }
  }

  lemma {:induction false} WalkReachesScope(h: Rules, t: Tree, visited: set<Path>, p: Path)
    requires WellFormed(t) && [] in visited
    requires forall q :: q in t && DirInScope(h, t, q) && Parent(q) in visited ==> q in visited
    requires p == [] || DirInScope(h, t, p)
    ensures p in visited
    decreases |p|
  {
    if p != [] {
      assert Hangs(t, p);
      ScopedParent(h, p);
      WalkReachesScope(h, t, visited, Parent(p));
    }
  }

  lemma WalkStarts(h: Rules, t: Tree)
    ensures Examined(t, {}, {}) && Walked(h, t, {}, [], []) && Counted(h, t, {}, ScanSkips(0, 0, 0))
    ensures Outstanding([[]], {}, [])
  {
  }

  lemma WalkIsComplete(h: Rules, t: Tree, visited: set<Path>, seen: set<Path>,
                       files: seq<Path>, directories: seq<Path>, skips: ScanSkips)
    requires WellFormed(t)
    requires Examined(t, visited, seen)
    requires Walked(h, t, seen, files, directories) && Counted(h, t, seen, skips)
    requires Outstanding([], visited, directories)
    ensures ListsFiles(h, t, files) && ListsDirectories(h, t, directories)
    ensures skips == ScanSkips(|IgnoredDirectories(h, t)|, |LinksInScope(h, t)|, |SpecialsInScope(h, t)|)
  {
    var pending: seq<Path> := [];
    assert [] in visited by { assert Outstanding(pending, visited, directories); assert [] !in pending; }
    forall p | p in t && Scoped(h, Parent(p)) ensures p in seen {
      assert Hangs(t, p);
      forall q | q in t && DirInScope(h, t, q) && Parent(q) in visited ensures q in visited {
        assert ListedBy(t, visited, q);
        assert q !in pending;
      }
      WalkReachesScope(h, t, visited, Parent(p));
      assert ListedBy(t, visited, p);
    }
    forall p | DirInScope(h, t, p) ensures p in seen {
      ScopedParent(h, p);
      assert Hangs(t, p);
    }
    assert IgnoredDirectories(h, t) * seen == IgnoredDirectories(h, t);
    assert LinksInScope(h, t) * seen == LinksInScope(h, t);
    assert SpecialsInScope(h, t) * seen == SpecialsInScope(h, t);
  }

  lemma WalkedStep(h: Rules, t: Tree, seen: set<Path>, files: seq<Path>, directories: seq<Path>, child: Path)
    requires Walked(h, t, seen, files, directories) && child !in seen
    ensures Walked(h, t, seen + {child},
                   if FileInScope(h, t, child) then files + [child] else files,
                   if DirInScope(h, t, child) then directories + [child] else directories)
  {
    if FileInScope(h, t, child) { AppendDistinct(files, child); }
    if DirInScope(h, t, child) { AppendDistinct(directories, child); }
  }

  lemma CountedStep(h: Rules, t: Tree, seen: set<Path>, skips: ScanSkips, child: Path)
    requires Counted(h, t, seen, skips) && child !in seen
    ensures Counted(h, t, seen + {child}, ScanSkips(
      skips.ignoredDirectories + if child in IgnoredDirectories(h, t) then 1 else 0,
      skips.symlinks + if child in LinksInScope(h, t) then 1 else 0,
      skips.specialFiles + if child in SpecialsInScope(h, t) then 1 else 0))
  {
    GrowIntersection(IgnoredDirectories(h, t), seen, child);
    GrowIntersection(LinksInScope(h, t), seen, child);
    GrowIntersection(SpecialsInScope(h, t), seen, child);
  }

  /** Examine one directory entry: list it, count it as a gap, or pass over run state. */
  method ExamineEntry(h: Rules, t: Tree, ghost seen: set<Path>, ghost visited: set<Path>, child: Path,
                      files: seq<Path>, directories: seq<Path>, pending: seq<Path>, skips: ScanSkips)
    returns (files': seq<Path>, directories': seq<Path>, pending': seq<Path>, skips': ScanSkips)
    requires child in t && child != [] && child !in seen && child !in visited && Scoped(h, Parent(child))
    requires Walked(h, t, seen, files, directories) && Counted(h, t, seen, skips)
    requires Outstanding(pending, visited, directories)
    ensures Walked(h, t, seen + {child}, files', directories') && Counted(h, t, seen + {child}, skips')
    ensures Outstanding(pending', visited, directories')
  {
    files', directories', pending', skips' := files, directories, pending, skips;
    ScopedParent(h, child);
    WalkedStep(h, t, seen, files, directories, child);
    CountedStep(h, t, seen, skips, child);
    match t[child]
    case Link(_) =>
      skips' := skips.(symlinks := skips.symlinks + 1);
    case Dir =>
      if |child| == 1 && h.internalName(child[0]) {
      } else if h.ignoredName(child[|child| - 1]) {
        skips' := skips.(ignoredDirectories := skips.ignoredDirectories + 1);
      } else {
        AppendDistinct(pending, child);
        directories' := directories + [child];
        pending' := pending + [child];
      }
    case Special =>
      skips' := skips.(specialFiles := skips.specialFiles + 1);
    case File(_, _, _, _) =>
      files' := files + [child];
  }

  /** List one directory in name order. */
  method ListDirectory(h: Rules, t: Tree, ghost seen: set<Path>, ghost visited: set<Path>, current: Path,
                       files: seq<Path>, directories: seq<Path>, pending: seq<Path>, skips: ScanSkips)
    returns (files': seq<Path>, directories': seq<Path>, pending': seq<Path>, skips': ScanSkips)
    requires Scoped(h, current)
    requires ChildrenOf(t, current) !! seen && ChildrenOf(t, current) !! visited
    requires Walked(h, t, seen, files, directories) && Counted(h, t, seen, skips)
    requires Outstanding(pending, visited, directories)
    ensures Walked(h, t, seen + ChildrenOf(t, current), files', directories')
    ensures Counted(h, t, seen + ChildrenOf(t, current), skips')
    ensures Outstanding(pending', visited, directories')
  {
    hide Walked, Counted, Outstanding, InPathOrder;
    files', directories', pending', skips' := files, directories, pending, skips;
    var children := SetToSeq(ChildrenOf(t, current));
    children := SortPaths(children);
    ghost var examined := seen;
    for i := 0 to |children|
      invariant forall p :: p in examined <==> p in seen || p in children[..i]
      invariant Walked(h, t, examined, files', directories') && Counted(h, t, examined, skips')
      invariant Outstanding(pending', visited, directories')
    {
      TakeNext(children, i);
      assert children[i] in ChildrenOf(t, current);
      files', directories', pending', skips' :=
        ExamineEntry(h, t, examined, visited, children[i], files', directories', pending', skips');
      examined := examined + {children[i]};
    }
    assert children[..|children|] == children;
    assert examined == seen + ChildrenOf(t, current);
  }

  /** The next directory of the work list has not been listed, and neither has any of its entries. */
  lemma NextIsUnexamined(h: Rules, t: Tree, visited: set<Path>, seen: set<Path>, pending: seq<Path>,
                         files: seq<Path>, directories: seq<Path>, current: Path)
    requires Examined(t, visited, seen) && Walked(h, t, seen, files, directories)
    requires Outstanding(pending, visited, directories) && pending != [] && current == pending[|pending| - 1]
    ensures Outstanding(pending[..|pending| - 1], visited + {current}, directories)
    ensures current !in visited && Scoped(h, current) && (current == [] || DirInScope(h, t, current))
    ensures ChildrenOf(t, current) !! seen && ChildrenOf(t, current) !! visited + {current}
  {
    assert current in pending;
    DropLastDistinct(pending);
    forall p | p in ChildrenOf(t, current) ensures p !in seen && p !in visited + {current} {
      assert !ListedBy(t, visited, p);
      assert p in visited ==> p in directories;
    }
  }

  /** Walk the capture scope once with an explicit work list. */
  method WalkWorkspace(h: Rules, t: Tree)
    returns (files: seq<Path>, directories: seq<Path>, skips: ScanSkips)
    requires WellFormed(t)
    ensures ListsFiles(h, t, files) && ListsDirectories(h, t, directories)
    ensures skips == ScanSkips(|IgnoredDirectories(h, t)|, |LinksInScope(h, t)|, |SpecialsInScope(h, t)|)
  {
    hide Walked, Counted, Outstanding, Examined, ListsFiles, ListsDirectories, WellFormed;
    hide IgnoredDirectories, LinksInScope, SpecialsInScope;
    files, directories, skips := [], [], ScanSkips(0, 0, 0);
    WalkStarts(h, t);
    var pending: seq<Path> := [[]];
    ghost var visited: set<Path>, seen: set<Path> := {}, {};
    ghost var reachable: set<Path> := {[]} + set p | p in t && DirInScope(h, t, p);
    while pending != []
      invariant Examined(t, visited, seen)
      invariant Walked(h, t, seen, files, directories) && Counted(h, t, seen, skips)
      invariant Outstanding(pending, visited, directories)
      invariant visited <= reachable
      decreases reachable - visited
    {
      var current := pending[|pending| - 1];
      NextIsUnexamined(h, t, visited, seen, pending, files, directories, current);
      pending := pending[..|pending| - 1];
      files, directories, pending, skips :=
        ListDirectory(h, t, seen, visited + {current}, current, files, directories, pending, skips);
      VisitExamines(t, visited, current, seen);
      visited, seen := visited + {current}, seen + ChildrenOf(t, current);
    }
    WalkIsComplete(h, t, visited, seen, files, directories, skips);
  }

  /** Every in-scope file and directory exactly once, in path order, with each kind of gap counted. */
  method ScanWorkspace(h: Rules, t: Tree)
    returns (files: seq<Path>, directories: seq<Path>, skips: ScanSkips)
    requires WellFormed(t)
    ensures ListsFiles(h, t, files) && InPathOrder(files)
    ensures ListsDirectories(h, t, directories) && InPathOrder(directories)
    ensures skips == ScanSkips(|IgnoredDirectories(h, t)|, |LinksInScope(h, t)|, |SpecialsInScope(h, t)|)
  {
    hide IgnoredDirectories, LinksInScope, SpecialsInScope, WellFormed;
    files, directories, skips := WalkWorkspace(h, t);
    files := SortPaths(files);
    directories := SortPaths(directories);
  }

  // ----- capture -----

  /** The manifest entry for one in-scope file. */
  function EntryFor(h: Rules, limits: Limits, p: Path, node: Node): Entry
    requires node.File?
  {
    var state :=
      if SensitivePath(h, p) then Sensitive
      else if |node.content| > limits.maxFileBytes then Oversize
      else if !node.readable then Unreadable
      else Captured(h.hash(node.content));
    Entry(|node.content|, node.mode, node.modified, state)
  }

  /** What capture asks of a file before it keeps the content. */
  predicate Capturable(h: Rules, limits: Limits, p: Path, node: Node)
    requires node.File?
  {
    !SensitivePath(h, p) && |node.content| <= limits.maxFileBytes && node.readable
  }

  function CapturedSize(h: Rules, limits: Limits, t: Tree, files: seq<Path>): nat
    requires forall p :: p in files ==> p in t && t[p].File?
  {
    if files == [] then 0
    else
      var p := files[|files| - 1];
      CapturedSize(h, limits, t, files[..|files| - 1]) +
      if EntryFor(h, limits, p, t[p]).state.Captured? then |t[p].content| else 0
  }

  lemma {:induction false} CapturedSizeGrows(h: Rules, limits: Limits, t: Tree, files: seq<Path>, k: nat)
    requires forall p :: p in files ==> p in t && t[p].File?
    requires k <= |files|
    ensures CapturedSize(h, limits, t, files[..k]) <= CapturedSize(h, limits, t, files)
  {
    if k == |files| {
      assert files[..k] == files;
    } else {
      var init := files[..|files| - 1];
      CapturedSizeGrows(h, limits, t, init, k);
      assert init[..k] == files[..k];
    }
  }

  /** No two contents share a digest. */
  ghost predicate Injective(h: Rules) {
    forall x, y :: h.hash(x) == h.hash(y) ==> x == y
  }

  /** Blobs are filed under the digest of what they hold. */
  ghost predicate ContentAddressed(h: Rules, blobs: Blobs) {
    forall d :: d in blobs ==> h.hash(blobs[d]) == d
  }

  ghost predicate Refers(entries: map<Path, Entry>, d: Digest) {
    exists p :: p in entries && entries[p].state == Captured(d)
  }

  lemma RefersNext(entries: map<Path, Entry>, p: Path, e: Entry, d: Digest)
    requires p !in entries
    ensures Refers(entries[p := e], d) <==> Refers(entries, d) || e.state == Captured(d)
  {
    var entries' := entries[p := e];
    if Refers(entries, d) {
      var q :| q in entries && entries[q].state == Captured(d);
      assert q in entries' && entries'[q].state == Captured(d);
    }
    if e.state == Captured(d) {
      assert p in entries' && entries'[p].state == Captured(d);
    }
  }

  /** `entries` and `blobs` record exactly the files listed, each digest stored once. */
  ghost predicate Records(h: Rules, limits: Limits, t: Tree, files: seq<Path>,
                          entries: map<Path, Entry>, blobs: Blobs)
    requires forall p :: p in files ==> p in t && t[p].File?
  {
    && (forall p :: p in entries <==> p in files)
    && (forall p :: p in entries ==> entries[p] == EntryFor(h, limits, p, t[p]))
    && ContentAddressed(h, blobs)
    && (forall d :: d in blobs <==> Refers(entries, d))
  }

  lemma RecordsNothing(h: Rules, limits: Limits, t: Tree)
    ensures Records(h, limits, t, [], map[], map[])
  {
  }

  lemma RecordsNext(h: Rules, limits: Limits, t: Tree, files: seq<Path>, k: nat,
                    entries: map<Path, Entry>, blobs: Blobs, blobs': Blobs)
    requires forall p :: p in files ==> p in t && t[p].File?
    requires NoDuplicates(files) && k < |files|
    requires Records(h, limits, t, files[..k], entries, blobs)
    requires var node := t[files[k]]; var e := EntryFor(h, limits, files[k], node);
             if e.state.Captured? && e.state.digest !in blobs
             then blobs' == blobs[e.state.digest := node.content] else blobs' == blobs
    ensures files[k] !in entries
    ensures Records(h, limits, t, files[..k + 1],
                    entries[files[k] := EntryFor(h, limits, files[k], t[files[k]])], blobs')
  {
    hide Refers;
    TakeNext(files, k);
    var e := EntryFor(h, limits, files[k], t[files[k]]);
    var entries' := entries[files[k] := e];
    forall d ensures d in blobs' <==> Refers(entries', d) {
      RefersNext(entries, files[k], e, d);
    }
  }

  lemma CapturedSizeNone(h: Rules, limits: Limits, t: Tree)
    ensures CapturedSize(h, limits, t, []) == 0
  {
  }

  lemma CapturedSizeNext(h: Rules, limits: Limits, t: Tree, files: seq<Path>, k: nat)
    requires forall p :: p in files ==> p in t && t[p].File?
    requires k < |files|
    ensures CapturedSize(h, limits, t, files[..k + 1]) ==
            CapturedSize(h, limits, t, files[..k]) +
            if EntryFor(h, limits, files[k], t[files[k]]).state.Captured? then |t[files[k]].content| else 0
    ensures CapturedSize(h, limits, t, files[..k + 1]) <= CapturedSize(h, limits, t, files)
  {
    CapturedSizeGrows(h, limits, t, files, k + 1);
    assert files[..k + 1][..k] == files[..k];
  }

  method CaptureEntries(h: Rules, limits: Limits, t: Tree, files: seq<Path>)
    returns (r: Result<(map<Path, Entry>, Blobs, nat), CaptureError>)
    requires NoDuplicates(files)
    requires forall p :: p in files ==> p in t && t[p].File?
    ensures r.Err? <==>
            |files| > limits.maxEntries || CapturedSize(h, limits, t, files) > limits.maxTotalBytes
    ensures r.Ok? ==> Records(h, limits, t, files, r.value.0, r.value.1)
    ensures r.Ok? ==> r.value.2 == CapturedSize(h, limits, t, files)
  {
    hide Records, ContentAddressed, NoDuplicates, CapturedSize, EntryFor;
    var entries: map<Path, Entry>, blobs: Blobs := map[], map[];
    var capturedBytes: nat := 0;
    RecordsNothing(h, limits, t);
    assert files[..0] == [];
    CapturedSizeNone(h, limits, t);
    for k := 0 to |files|
      invariant k == |entries| <= limits.maxEntries
      invariant Records(h, limits, t, files[..k], entries, blobs)
      invariant capturedBytes == CapturedSize(h, limits, t, files[..k]) <= limits.maxTotalBytes
    {
      if |entries| >= limits.maxEntries {
        return Err(LimitExceeded);
      }
      var node := t[files[k]];
      var entry := EntryFor(h, limits, files[k], node);
      CapturedSizeNext(h, limits, t, files, k);
      var blobs' := blobs;
      if entry.state.Captured? {
        capturedBytes := capturedBytes + |node.content|;
        if capturedBytes > limits.maxTotalBytes {
          return Err(LimitExceeded);
        }
        if entry.state.digest !in blobs {
          blobs' := blobs[entry.state.digest := node.content];
        }
      }
      RecordsNext(h, limits, t, files, k, entries, blobs, blobs');
      entries, blobs := entries[files[k] := entry], blobs';
    }
    assert files[..|files|] == files;
    return Ok((entries, blobs, capturedBytes as nat));
  }

  /** `cp` and `blobs` are the baseline of tree `t`. */
  ghost predicate BaselineOf(h: Rules, limits: Limits, t: Tree, cp: Checkpoint, blobs: Blobs) {
    && (forall p :: p in cp.entries <==> FileInScope(h, t, p))
    && (forall p :: p in cp.entries ==> cp.entries[p] == EntryFor(h, limits, p, t[p]))
    && (forall p :: p in cp.directories <==> DirInScope(h, t, p))
    && ContentAddressed(h, blobs)
    && (forall d :: d in blobs <==> Refers(cp.entries, d))
  }

  /** What a manifest says about one file, and what the store keeps of it, in terms of
      the file's own path, size, content and readability. */
  ghost predicate CapturedAs(h: Rules, limits: Limits, p: Path, node: Node, e: Entry, blobs: Blobs)
    requires node.File?
  {
    && e.size == |node.content| && e.mode == node.mode && e.modified == node.modified
    && (e.state.Captured? <==> Capturable(h, limits, p, node))
    && (e.state.Captured? ==>
          && e.state.digest == h.hash(node.content)
          && e.state.digest in blobs && h.hash(blobs[e.state.digest]) == h.hash(node.content)
          && (Injective(h) ==> blobs[e.state.digest] == node.content))
    && (e.state.Sensitive? <==> SensitivePath(h, p))
    && (e.state.Oversize? <==> !SensitivePath(h, p) && |node.content| > limits.maxFileBytes)
    && (e.state.Unreadable? <==>
          !SensitivePath(h, p) && |node.content| <= limits.maxFileBytes && !node.readable)
  }

  /** Capture keeps the content of exactly the files in scope that are not sensitive,
      not over the size limit and readable, and records why it kept no other. */
  lemma CapturedExactly(h: Rules, limits: Limits, t: Tree, cp: Checkpoint, blobs: Blobs, p: Path)
    requires BaselineOf(h, limits, t, cp, blobs) && FileInScope(h, t, p)
    ensures p in cp.entries && CapturedAs(h, limits, p, t[p], cp.entries[p], blobs)
  {
    hide SensitivePath;
    var e := cp.entries[p];
    if e.state.Captured? {
      assert Refers(cp.entries, e.state.digest);
    }
  }

  lemma CaptureIsBaseline(h: Rules, limits: Limits, t: Tree, files: seq<Path>, directories: seq<Path>,
                          cp: Checkpoint, blobs: Blobs)
    requires ListsFiles(h, t, files) && ListsDirectories(h, t, directories)
    requires Records(h, limits, t, files, cp.entries, blobs)
    requires cp.directories == Elements(directories)
    ensures BaselineOf(h, limits, t, cp, blobs)
    ensures |cp.entries| == |files|
  {
    hide ContentAddressed, Refers;
    SameKeys(cp.entries, files);
  }

  function FilesInScope(h: Rules, t: Tree): set<Path> {
    set p | p in t && FileInScope(h, t, p)
  }

  function CapturedBytes(h: Rules, limits: Limits, p: Path, node: Node): nat
    requires node.File?
  {
    if Capturable(h, limits, p, node) then |node.content| else 0
  }

  /** The bytes captured for a set of files, in whatever order they are taken. */
  ghost function CapturedTotal(h: Rules, limits: Limits, t: Tree, paths: set<Path>): nat
    requires forall p :: p in paths ==> p in t && t[p].File?
  {
    if paths == {} then 0
    else
      var p :| p in paths;
      CapturedTotal(h, limits, t, paths - {p}) + CapturedBytes(h, limits, p, t[p])
  }

  lemma {:induction false} CapturedTotalWithout(h: Rules, limits: Limits, t: Tree, paths: set<Path>, p: Path)
    requires forall q :: q in paths ==> q in t && t[q].File?
    requires p in paths
    ensures CapturedTotal(h, limits, t, paths) ==
            CapturedTotal(h, limits, t, paths - {p}) + CapturedBytes(h, limits, p, t[p])
  {
    hide CapturedBytes;
    var q :| q in paths &&
             CapturedTotal(h, limits, t, paths) ==
             CapturedTotal(h, limits, t, paths - {q}) + CapturedBytes(h, limits, q, t[q]);
    if q != p {
      CapturedTotalWithout(h, limits, t, paths - {q}, p);
      CapturedTotalWithout(h, limits, t, paths - {p}, q);
      assert paths - {q} - {p} == paths - {p} - {q};
    }
  }

  lemma {:induction false} CapturedSizeIsTotal(h: Rules, limits: Limits, t: Tree, files: seq<Path>)
    requires forall p :: p in files ==> p in t && t[p].File?
    requires NoDuplicates(files)
    ensures CapturedSize(h, limits, t, files) == CapturedTotal(h, limits, t, Elements(files))
  {
    hide SensitivePath;
    if files != [] {
      var init, p := files[..|files| - 1], files[|files| - 1];
      DropLastDistinct(files);
      CapturedSizeIsTotal(h, limits, t, init);
      CapturedTotalWithout(h, limits, t, Elements(files), p);
      assert Elements(files) - {p} == Elements(init);
    }
  }

  method CreateCheckpoint(h: Rules, limits: Limits, t: Tree) returns (r: Result<(Checkpoint, Blobs), CaptureError>)
    requires WellFormed(t)
    ensures r.Err? <==>
            || |FilesInScope(h, t)| > limits.maxEntries
            || CapturedTotal(h, limits, t, FilesInScope(h, t)) > limits.maxTotalBytes
    ensures r.Ok? ==> BaselineOf(h, limits, t, r.value.0, r.value.1)
    ensures r.Ok? ==> forall p :: FileInScope(h, t, p) ==>
                                    p in r.value.0.entries &&
                                    CapturedAs(h, limits, p, t[p], r.value.0.entries[p], r.value.1)
    ensures r.Ok? ==> r.value.0.blobCount == |r.value.1| && |r.value.0.entries| <= limits.maxEntries
    ensures r.Ok? ==> r.value.0.skips ==
                      ScanSkips(|IgnoredDirectories(h, t)|, |LinksInScope(h, t)|, |SpecialsInScope(h, t)|)
  {
    hide BaselineOf, Records, WellFormed, InPathOrder, IgnoredDirectories, LinksInScope, SpecialsInScope;
    hide CapturedSize, CapturedTotal, CapturedAs;
    var files, directories, skips := ScanWorkspace(h, t);
    DistinctCount(files);
    CapturedSizeIsTotal(h, limits, t, files);
    assert Elements(files) == FilesInScope(h, t);
    var captured := CaptureEntries(h, limits, t, files);
    if captured.Err? {
      return Err(captured.error);
    }
    var (entries, blobs, bytes) := captured.value;
    var scoped := Elements(directories);
    var cp := Checkpoint(entries, scoped, bytes, |blobs|, skips);
    CaptureIsBaseline(h, limits, t, files, directories, cp, blobs);
    forall p | FileInScope(h, t, p) ensures p in entries && CapturedAs(h, limits, p, t[p], entries[p], blobs) {
      CapturedExactly(h, limits, t, cp, blobs, p);
    }
    return Ok((cp, blobs));
  }

  // ----- what can be read back -----

  /** The check a stored or planned path has to pass, as it falls on real file names. */
  predicate Addressable(p: Path) {
    forall i | 0 <= i < |p| :: '\\' !in p[i] && '\0' !in p[i]
  }

  /** A manifest loads only if every path in it passes and no number in it is negative,
      as the modification time of a file dated before the epoch is. */
  predicate Loadable(cp: Checkpoint) {
    && (forall p | p in cp.entries :: Addressable(p) && cp.entries[p].modified >= 0)
    && (forall p | p in cp.directories :: Addressable(p))
  }

  /** Capture checks neither: the checkpoint of a workspace can be loaded exactly when
      every file and directory in scope has a name that passes and no file in scope is
      dated before the epoch. */
  lemma LoadableExactly(h: Rules, limits: Limits, t: Tree, cp: Checkpoint, blobs: Blobs)
    requires BaselineOf(h, limits, t, cp, blobs)
    ensures Loadable(cp) <==>
            && (forall p :: FileInScope(h, t, p) || DirInScope(h, t, p) ==> Addressable(p))
            && (forall p :: FileInScope(h, t, p) ==> t[p].modified >= 0)
  {
    hide ContentAddressed, Refers, Addressable;
  }

  /** A file dated before the epoch is captured like any other, and then no checkpoint
      of its workspace can be loaded. */
  lemma OldFileNeverLoads(h: Rules, limits: Limits, t: Tree, p: Path, cp: Checkpoint, blobs: Blobs)
    requires BaselineOf(h, limits, t, cp, blobs)
    requires FileInScope(h, t, p) && t[p].modified < 0
    ensures p in cp.entries && !Loadable(cp)
  {
    LoadableExactly(h, limits, t, cp, blobs);
  }

  lemma SameKeys<K, V>(m: map<K, V>, keys: seq<K>)
    requires NoDuplicates(keys)
    requires forall k :: k in m <==> k in keys
    ensures |m| == |keys|
  {
    DistinctCount(keys);
    assert m.Keys == Elements(keys);
  }

  // ----- planning -----

  datatype Action = Restore | Recreate | Delete | CreateDirectory | RemoveDirectory

  datatype Source = Tool | Other

  datatype Item = Item(path: Path, action: Action, source: Source)

  datatype Reason = SensitiveRemoved | SensitiveChanged | SensitiveCreated | OversizeChanged | UnreadableChanged

  datatype Skip = Skip(path: Path, reason: Reason)

  datatype Plan = Plan(items: seq<Item>, skipped: seq<Skip>)

  predicate ContentDiffers(h: Rules, e: Entry, node: Node)
    requires e.state.Captured? && node.File?
  {
    e.size != |node.content| || !node.readable || h.hash(node.content) != e.state.digest
  }

  predicate MetadataDiffers(e: Entry, node: Node)
    requires node.File?
  {
    e.size != |node.content| || e.modified != node.modified
  }

  /** What a plan says about one baseline file. */
  function BaselineAction(h: Rules, cp: Checkpoint, t: Tree, p: Path): Option<Action>
    requires p in cp.entries
  {
    var e := cp.entries[p];
    if !e.state.Captured? then None
    else if !FileInScope(h, t, p) then Some(Recreate)
    else if ContentDiffers(h, e, t[p]) then Some(Restore)
    else None
  }

  predicate Planned(h: Rules, cp: Checkpoint, t: Tree, a: Action, p: Path) {
    match a
    case Restore => p in cp.entries && BaselineAction(h, cp, t, p) == Some(Restore)
    case Recreate => p in cp.entries && BaselineAction(h, cp, t, p) == Some(Recreate)
    case Delete => p !in cp.entries && FileInScope(h, t, p) && !SensitivePath(h, p)
    case CreateDirectory => p in cp.directories && !DirInScope(h, t, p)
    case RemoveDirectory => p !in cp.directories && DirInScope(h, t, p)
  }

  /** A change the plan reports without acting on it. */
  function SkippedFor(h: Rules, cp: Checkpoint, t: Tree, p: Path): Option<Reason> {
    if p in cp.entries then
      var e := cp.entries[p];
      match e.state
      case Captured(_) => None
      case Sensitive =>
        if !FileInScope(h, t, p) then Some(SensitiveRemoved)
        else if MetadataDiffers(e, t[p]) then Some(SensitiveChanged)
        else None
      case Oversize =>
        if !FileInScope(h, t, p) || MetadataDiffers(e, t[p]) then Some(OversizeChanged) else None
      case Unreadable =>
        if !FileInScope(h, t, p) || MetadataDiffers(e, t[p]) then Some(UnreadableChanged) else None
    else if FileInScope(h, t, p) && SensitivePath(h, p) then Some(SensitiveCreated)
    else None
  }

  function SourceOf(written: set<Path>, a: Action, p: Path): Source {
    if !a.CreateDirectory? && !a.RemoveDirectory? && p in written then Tool else Other
  }

  /** The plan acts on exactly the differences with the baseline, each once, and
      reports exactly the covered gaps, each once. */
  ghost predicate IsPlan(h: Rules, cp: Checkpoint, t: Tree, written: set<Path>, plan: Plan) {
    && NoDuplicates(plan.items)
    && (forall it :: it in plan.items <==>
          Planned(h, cp, t, it.action, it.path) && it.source == SourceOf(written, it.action, it.path))
    && NoDuplicates(plan.skipped)
    && (forall s :: s in plan.skipped <==> SkippedFor(h, cp, t, s.path) == Some(s.reason))
  }

  /** How tree `t` departs at `p` from the tree that was captured, action by action. */
  predicate Departs(h: Rules, limits: Limits, original: Tree, t: Tree, a: Action, p: Path) {
    match a
    case Restore =>
      && FileInScope(h, original, p) && Capturable(h, limits, p, original[p])
      && FileInScope(h, t, p) && !(t[p].readable && t[p].content == original[p].content)
    case Recreate =>
      FileInScope(h, original, p) && Capturable(h, limits, p, original[p]) && !FileInScope(h, t, p)
    case Delete => FileInScope(h, t, p) && !FileInScope(h, original, p) && !SensitivePath(h, p)
    case CreateDirectory => DirInScope(h, original, p) && !DirInScope(h, t, p)
    case RemoveDirectory => DirInScope(h, t, p) && !DirInScope(h, original, p)
  }

  predicate Retouched(h: Rules, original: Node, t: Tree, p: Path)
    requires original.File?
  {
    !FileInScope(h, t, p) || |t[p].content| != |original.content| || t[p].modified != original.modified
  }

  /** How `t` departs from the captured tree at a file whose content was not kept. */
  predicate DepartsUncovered(h: Rules, limits: Limits, original: Tree, t: Tree, p: Path, reason: Reason) {
    match reason
    case SensitiveCreated => SensitivePath(h, p) && !FileInScope(h, original, p) && FileInScope(h, t, p)
    case SensitiveRemoved => SensitivePath(h, p) && FileInScope(h, original, p) && !FileInScope(h, t, p)
    case SensitiveChanged =>
      SensitivePath(h, p) && FileInScope(h, original, p) && FileInScope(h, t, p) && Retouched(h, original[p], t, p)
    case OversizeChanged =>
      && FileInScope(h, original, p) && !SensitivePath(h, p)
      && |original[p].content| > limits.maxFileBytes && Retouched(h, original[p], t, p)
    case UnreadableChanged =>
      && FileInScope(h, original, p) && !SensitivePath(h, p)
      && |original[p].content| <= limits.maxFileBytes && !original[p].readable && Retouched(h, original[p], t, p)
  }

  lemma PlannedExactly(h: Rules, limits: Limits, original: Tree, cp: Checkpoint, blobs: Blobs, t: Tree, a: Action, p: Path)
    requires Injective(h) && BaselineOf(h, limits, original, cp, blobs)
    ensures Planned(h, cp, t, a, p) <==> Departs(h, limits, original, t, a, p)
  {
    hide SensitivePath, ContentAddressed, Refers;
  }

  lemma SkippedExactly(h: Rules, limits: Limits, original: Tree, cp: Checkpoint, blobs: Blobs, t: Tree, p: Path, r: Reason)
    requires BaselineOf(h, limits, original, cp, blobs)
    ensures SkippedFor(h, cp, t, p) == Some(r) <==> DepartsUncovered(h, limits, original, t, p, r)
  {
    hide SensitivePath, ContentAddressed, Refers;
  }

  /** A plan in terms of the captured tree: its items are exactly the departures from
      it, with those at a file a tool wrote marked so, and its skips exactly the
      departures it can do nothing about. */
  lemma PlanAgainstOriginal(h: Rules, limits: Limits, original: Tree, cp: Checkpoint, blobs: Blobs, t: Tree,
                            written: set<Path>, plan: Plan)
    requires Injective(h) && BaselineOf(h, limits, original, cp, blobs)
    requires IsPlan(h, cp, t, written, plan)
    ensures forall it :: it in plan.items <==>
              && Departs(h, limits, original, t, it.action, it.path)
              && (it.source == Tool <==> it.path in written && it.action in {Restore, Recreate, Delete})
    ensures forall s :: s in plan.skipped <==> DepartsUncovered(h, limits, original, t, s.path, s.reason)
  {
    hide Planned, SkippedFor, Departs, DepartsUncovered, BaselineOf;
    forall it ensures it in plan.items <==>
              && Departs(h, limits, original, t, it.action, it.path)
              && (it.source == Tool <==> it.path in written && it.action in {Restore, Recreate, Delete})
    {
      PlannedExactly(h, limits, original, cp, blobs, t, it.action, it.path);
    }
    forall s ensures s in plan.skipped <==> DepartsUncovered(h, limits, original, t, s.path, s.reason) {
      SkippedExactly(h, limits, original, cp, blobs, t, s.path, s.reason);
    }
  }

  type Question = (Action, Path)

  /** The items decided by the questions answered so far. */
  ghost predicate ItemsAnswer(h: Rules, cp: Checkpoint, t: Tree, written: set<Path>,
                              items: seq<Item>, asked: set<Question>) {
    && NoDuplicates(items)
    && forall it :: it in items <==>
         (it.action, it.path) in asked && Planned(h, cp, t, it.action, it.path) &&
         it.source == SourceOf(written, it.action, it.path)
  }

  ghost predicate SkipsAnswer(h: Rules, cp: Checkpoint, t: Tree, skipped: seq<Skip>, asked: set<Path>) {
    && NoDuplicates(skipped)
    && forall s :: s in skipped <==> s.path in asked && SkippedFor(h, cp, t, s.path) == Some(s.reason)
  }

  lemma AnswerItem(h: Rules, cp: Checkpoint, t: Tree, written: set<Path>,
                   items: seq<Item>, asked: set<Question>, a: Action, p: Path)
    requires ItemsAnswer(h, cp, t, written, items, asked) && (a, p) !in asked
    ensures ItemsAnswer(h, cp, t, written,
                        if Planned(h, cp, t, a, p) then items + [Item(p, a, SourceOf(written, a, p))] else items,
                        asked + {(a, p)})
  {
    hide Planned, SourceOf;
    if Planned(h, cp, t, a, p) {
      AppendDistinct(items, Item(p, a, SourceOf(written, a, p)));
    }
  }

  lemma AnswerSkip(h: Rules, cp: Checkpoint, t: Tree, skipped: seq<Skip>, asked: set<Path>, p: Path)
    requires SkipsAnswer(h, cp, t, skipped, asked) && p !in asked
    ensures SkipsAnswer(h, cp, t, Appended(skipped, match SkippedFor(h, cp, t, p)
                                                    case Some(r) => Some(Skip(p, r))
                                                    case None => None), asked + {p})
  {
    hide SkippedFor;
    match SkippedFor(h, cp, t, p)
    case Some(r) => AppendDistinct(skipped, Skip(p, r));
    case None =>
  }

  predicate SkipLeq(a: Skip, b: Skip) {
    PathLeq(a.path, b.path)
  }

  function SortSkips(skipped: seq<Skip>): (r: seq<Skip>)
    requires NoDuplicates(skipped)
    ensures SortedBy(r, SkipLeq)
    ensures NoDuplicates(r) && forall s :: s in r <==> s in skipped
  {
    PathOrder();
    assert TotalPreorder(SkipLeq) by {
      assert forall a, b, c :: SkipLeq(a, b) && SkipLeq(b, c) ==> PathLeq(a.path, c.path);
    }
    Sorted(skipped, SkipLeq)
  }

  // ----- the order a plan is shown in -----

  function Block(a: Action): nat {
    match a
    case Restore => 0
    case Recreate => 0
    case Delete => 1
    case CreateDirectory => 2
    case RemoveDirectory => 3
  }

  predicate ShownBefore(block: nat, p: Path, q: Path) {
    if block == Block(RemoveDirectory) then PathLeq(q, p) else PathLeq(p, q)
  }

  /** Baseline files, added files, missing directories, new directories: each part
      by path, and the last one backwards. */
  ghost predicate InShownOrder(items: seq<Item>) {
    forall i, j :: 0 <= i < j < |items| ==>
      var a, b := Block(items[i].action), Block(items[j].action);
      a < b || (a == b && ShownBefore(a, items[i].path, items[j].path))
  }

  ghost predicate PathsInOrder(paths: seq<Path>, block: nat) {
    forall i, j :: 0 <= i < j < |paths| ==> ShownBefore(block, paths[i], paths[j])
  }

  /** The items so far are earlier parts and, of this part, paths already taken. */
  ghost predicate ShownSoFar(items: seq<Item>, block: nat, paths: seq<Path>) {
    && InShownOrder(items)
    && forall it :: it in items ==> Block(it.action) < block || (Block(it.action) == block && it.path in paths)
  }

  lemma ShownNext(items: seq<Item>, block: nat, paths: seq<Path>, k: nat, item: Option<Item>)
    requires k < |paths| && ShownSoFar(items, block, paths[..k]) && PathsInOrder(paths, block)
    requires item.Some? ==> item.value.path == paths[k] && Block(item.value.action) == block
    ensures ShownSoFar(Appended(items, item), block, paths[..k + 1])
  {
    hide ShownBefore;
    TakeNext(paths, k);
    if item.Some? {
      forall it | it in items && Block(it.action) == block ensures ShownBefore(block, it.path, paths[k]) {
        var i :| 0 <= i < k && paths[i] == it.path;
      }
    }
  }

  lemma ShownNextPart(items: seq<Item>, block: nat, paths: seq<Path>)
    requires ShownSoFar(items, block, paths)
    ensures ShownSoFar(items, block + 1, [])
  {
  }

  lemma ForwardIsShown(paths: seq<Path>, a: Action)
    requires InPathOrder(paths) && !a.RemoveDirectory?
    ensures PathsInOrder(paths, Block(a))
  {
  }

  lemma BackwardIsShown(paths: seq<Path>)
    requires InPathOrder(paths)
    ensures PathsInOrder(Reversed(paths), Block(RemoveDirectory))
  {
  }

  /** What the two tables say about one baseline file. */
  ghost predicate Decided(h: Rules, cp: Checkpoint, t: Tree, written: set<Path>, path: Path,
                          item: Option<Item>, skip: Option<Skip>)
    requires path in cp.entries
  {
    && item == (match BaselineAction(h, cp, t, path)
                case Some(a) => Some(Item(path, a, SourceOf(written, a, path)))
                case None => None)
    && skip == match SkippedFor(h, cp, t, path)
               case Some(reason) => Some(Skip(path, reason))
               case None => None
  }

  /** What one baseline file adds to the plan. */
  method DecideBaseline(h: Rules, cp: Checkpoint, t: Tree, written: set<Path>, path: Path)
    returns (item: Option<Item>, skip: Option<Skip>)
    requires path in cp.entries
    ensures Decided(h, cp, t, written, path, item, skip)
  {
    item, skip := None, None;
    var entry := cp.entries[path];
    var present := FileInScope(h, t, path);
    if entry.state.Sensitive? {
      if !present {
        skip := Some(Skip(path, SensitiveRemoved));
      } else if MetadataDiffers(entry, t[path]) {
        skip := Some(Skip(path, SensitiveChanged));
      }
    } else if !entry.state.Captured? {
      if !present || MetadataDiffers(entry, t[path]) {
        skip := Some(Skip(path, if entry.state.Oversize? then OversizeChanged else UnreadableChanged));
      }
    } else if !present {
      item := Some(Item(path, Recreate, SourceOf(written, Recreate, path)));
    } else if ContentDiffers(h, entry, t[path]) {
      item := Some(Item(path, Restore, SourceOf(written, Restore, path)));
    }
  }

  function Appended<T>(s: seq<T>, x: Option<T>): seq<T> {
    match x
    case Some(value) => s + [value]
    case None => s
  }

  /** Both questions about one baseline file are answered by at most one item. */
  lemma AnswerBaseline(h: Rules, cp: Checkpoint, t: Tree, written: set<Path>,
                       items: seq<Item>, asked: set<Question>, p: Path, item: Option<Item>)
    requires p in cp.entries
    requires ItemsAnswer(h, cp, t, written, items, asked) && (Restore, p) !in asked && (Recreate, p) !in asked
    requires item == match BaselineAction(h, cp, t, p)
                     case Some(a) => Some(Item(p, a, SourceOf(written, a, p)))
                     case None => None
    ensures ItemsAnswer(h, cp, t, written, Appended(items, item), asked + {(Restore, p), (Recreate, p)})
  {
    hide ItemsAnswer, SourceOf, FileInScope, ContentDiffers;
    AnswerItem(h, cp, t, written, items, asked, Restore, p);
    var items' := if Planned(h, cp, t, Restore, p) then items + [Item(p, Restore, SourceOf(written, Restore, p))] else items;
    AnswerItem(h, cp, t, written, items', asked + {(Restore, p)}, Recreate, p);
    assert asked + {(Restore, p)} + {(Recreate, p)} == asked + {(Restore, p), (Recreate, p)};
  }

  lemma BaselineBlock(h: Rules, cp: Checkpoint, t: Tree, p: Path)
    requires p in cp.entries
    ensures forall a :: BaselineAction(h, cp, t, p) == Some(a) ==> Block(a) == Block(Restore)
  {
  }

  function BaselineQuestions(paths: set<Path>): set<Question> {
    (set p | p in paths :: (Restore, p)) + (set p | p in paths :: (Recreate, p))
  }

  lemma BaselineQuestionsAre(paths: set<Path>)
    ensures forall a, p :: (a, p) in BaselineQuestions(paths) <==> p in paths && (a == Restore || a == Recreate)
  {
  }

  /** The plan so far answers every question about the baseline files taken. */
  ghost predicate BaselineSoFar(h: Rules, cp: Checkpoint, t: Tree, written: set<Path>,
                                items: seq<Item>, skipped: seq<Skip>, taken: seq<Path>) {
    && ItemsAnswer(h, cp, t, written, items, BaselineQuestions(Elements(taken)))
    && SkipsAnswer(h, cp, t, skipped, Elements(taken))
    && ShownSoFar(items, Block(Restore), taken)
  }

  lemma BaselineNext(h: Rules, cp: Checkpoint, t: Tree, written: set<Path>, items: seq<Item>, skipped: seq<Skip>,
                     paths: seq<Path>, k: nat, item: Option<Item>, skip: Option<Skip>)
    requires k < |paths| && paths[k] in cp.entries && NoDuplicates(paths) && PathsInOrder(paths, Block(Restore))
    requires BaselineSoFar(h, cp, t, written, items, skipped, paths[..k])
    requires Decided(h, cp, t, written, paths[k], item, skip)
    ensures BaselineSoFar(h, cp, t, written, Appended(items, item), Appended(skipped, skip), paths[..k + 1])
  {
    hide ItemsAnswer, SkipsAnswer, BaselineAction, SkippedFor, Appended, ShownSoFar, PathsInOrder;
    TakeNext(paths, k);
    var taken := Elements(paths[..k]);
    AnswerBaseline(h, cp, t, written, items, BaselineQuestions(taken), paths[k], item);
    AnswerSkip(h, cp, t, skipped, taken, paths[k]);
    BaselineBlock(h, cp, t, paths[k]);
    ShownNext(items, Block(Restore), paths, k, item);
    assert Elements(paths[..k + 1]) == taken + {paths[k]};
    assert BaselineQuestions(taken + {paths[k]}) ==
           BaselineQuestions(taken) + {(Restore, paths[k]), (Recreate, paths[k])};
  }

  lemma NoBaselineYet(h: Rules, cp: Checkpoint, t: Tree, written: set<Path>)
    ensures BaselineSoFar(h, cp, t, written, [], [], [])
  {
  }

  lemma BaselineDone(h: Rules, cp: Checkpoint, t: Tree, written: set<Path>,
                     items: seq<Item>, skipped: seq<Skip>, paths: seq<Path>)
    requires BaselineSoFar(h, cp, t, written, items, skipped, paths)
    requires forall p :: p in paths <==> p in cp.entries.Keys
    ensures ItemsAnswer(h, cp, t, written, items, BaselineQuestions(cp.entries.Keys))
    ensures SkipsAnswer(h, cp, t, skipped, cp.entries.Keys)
    ensures ShownSoFar(items, Block(Delete), [])
  {
    hide ItemsAnswer, SkipsAnswer;
    assert Elements(paths) == cp.entries.Keys;
    ShownNextPart(items, Block(Restore), paths);
  }

  method InOrderOfPath(all: set<Path>, ghost a: Action) returns (paths: seq<Path>)
    ensures NoDuplicates(paths) && InPathOrder(paths)
    ensures forall p :: p in paths <==> p in all
    ensures !a.RemoveDirectory? ==> PathsInOrder(paths, Block(a))
  {
    hide InPathOrder, PathsInOrder;
    paths := SetToSeq(all);
    paths := SortPaths(paths);
    if !a.RemoveDirectory? {
      ForwardIsShown(paths, a);
    }
  }

  /** Decide every baseline file: restore it, recreate it, report it, or leave it. */
  method PlanBaseline(h: Rules, cp: Checkpoint, t: Tree, written: set<Path>)
    returns (items: seq<Item>, skipped: seq<Skip>, ghost asked: set<Question>)
    ensures ItemsAnswer(h, cp, t, written, items, asked)
    ensures asked == BaselineQuestions(cp.entries.Keys)
    ensures SkipsAnswer(h, cp, t, skipped, cp.entries.Keys)
    ensures ShownSoFar(items, Block(Delete), [])
  {
    hide *;
    items, skipped, asked := [], [], BaselineQuestions(cp.entries.Keys);
    NoBaselineYet(h, cp, t, written);
    var paths := InOrderOfPath(cp.entries.Keys, Restore);
    assert paths[..0] == [];
    for k := 0 to |paths|
      invariant BaselineSoFar(h, cp, t, written, items, skipped, paths[..k])
    {
      var item, skip := DecideBaseline(h, cp, t, written, paths[k]);
      BaselineNext(h, cp, t, written, items, skipped, paths, k, item, skip);
      items, skipped := Appended(items, item), Appended(skipped, skip);
    }
    assert paths[..|paths|] == paths;
    BaselineDone(h, cp, t, written, items, skipped, paths);
  }

  lemma FileDecision(h: Rules, cp: Checkpoint, t: Tree, p: Path)
    requires FileInScope(h, t, p)
    ensures Planned(h, cp, t, Delete, p) <==> p !in cp.entries && !SensitivePath(h, p)
    ensures p !in cp.entries ==>
              SkippedFor(h, cp, t, p) == if SensitivePath(h, p) then Some(SensitiveCreated) else None
  {
  }

  /** Decide every file the scan found that the baseline does not have. */
  method PlanAddedFiles(h: Rules, cp: Checkpoint, t: Tree, written: set<Path>, files: seq<Path>,
                        items0: seq<Item>, skipped0: seq<Skip>, ghost asked0: set<Question>)
    returns (items: seq<Item>, skipped: seq<Skip>, ghost asked: set<Question>)
    requires ListsFiles(h, t, files) && InPathOrder(files)
    requires ItemsAnswer(h, cp, t, written, items0, asked0) && SkipsAnswer(h, cp, t, skipped0, cp.entries.Keys)
    requires ShownSoFar(items0, Block(Delete), [])
    requires forall p :: (Delete, p) !in asked0
    ensures ItemsAnswer(h, cp, t, written, items, asked)
    ensures forall a, p :: (a, p) in asked <==>
              (a, p) in asked0 || (a == Delete && p in files && p !in cp.entries)
    ensures SkipsAnswer(h, cp, t, skipped, cp.entries.Keys + Elements(files))
    ensures ShownSoFar(items, Block(CreateDirectory), [])
  {
    hide ItemsAnswer, SkipsAnswer, Planned, SkippedFor, InPathOrder, ShownSoFar, PathsInOrder;
    ForwardIsShown(files, Delete);
    items, skipped, asked := items0, skipped0, asked0;
    ghost var done := cp.entries.Keys;
    for k := 0 to |files|
      invariant ItemsAnswer(h, cp, t, written, items, asked)
      invariant ShownSoFar(items, Block(Delete), files[..k])
      invariant forall a, p :: (a, p) in asked <==>
                  (a, p) in asked0 || (a == Delete && p in files[..k] && p !in cp.entries)
      invariant SkipsAnswer(h, cp, t, skipped, done)
      invariant forall p :: p in done <==> p in cp.entries.Keys || p in files[..k]
    {
      var path := files[k];
      TakeNext(files, k);
      ghost var added := path !in cp.entries && !SensitivePath(h, path);
      ShownNext(items, Block(Delete), files, k,
                if added then Some(Item(path, Delete, SourceOf(written, Delete, path))) else None);
      if path !in cp.entries {
        FileDecision(h, cp, t, path);
        AnswerItem(h, cp, t, written, items, asked, Delete, path);
        AnswerSkip(h, cp, t, skipped, done, path);
        asked, done := asked + {(Delete, path)}, done + {path};
        if SensitivePath(h, path) {
          skipped := skipped + [Skip(path, SensitiveCreated)];
        } else {
          items := items + [Item(path, Delete, SourceOf(written, Delete, path))];
        }
      }
    }
    assert files[..|files|] == files;
    assert done == cp.entries.Keys + Elements(files);
    ShownNextPart(items, Block(Delete), files);
  }

  /** Decide a list of directories that are all missing, or all new. */
  method PlanDirectories(h: Rules, cp: Checkpoint, t: Tree, written: set<Path>, paths: seq<Path>, action: Action,
                         items0: seq<Item>, ghost asked0: set<Question>)
    returns (items: seq<Item>, ghost asked: set<Question>)
    requires action == CreateDirectory || action == RemoveDirectory
    requires NoDuplicates(paths) && forall p :: p in paths ==> Planned(h, cp, t, action, p)
    requires PathsInOrder(paths, Block(action)) && ShownSoFar(items0, Block(action), [])
    requires ItemsAnswer(h, cp, t, written, items0, asked0)
    requires forall p :: (action, p) !in asked0
    ensures ShownSoFar(items, Block(action) + 1, [])
    ensures ItemsAnswer(h, cp, t, written, items, asked)
    ensures forall a, p :: (a, p) in asked <==> (a, p) in asked0 || (a == action && p in paths)
  {
    hide ItemsAnswer, Planned, ShownSoFar, PathsInOrder;
    items, asked := items0, asked0;
    for k := 0 to |paths|
      invariant ShownSoFar(items, Block(action), paths[..k])
      invariant ItemsAnswer(h, cp, t, written, items, asked)
      invariant forall a, p :: (a, p) in asked <==> (a, p) in asked0 || (a == action && p in paths[..k])
    {
      var path := paths[k];
      TakeNext(paths, k);
      AnswerItem(h, cp, t, written, items, asked, action, path);
      ShownNext(items, Block(action), paths, k, Some(Item(path, action, Other)));
      asked := asked + {(action, path)};
      items := items + [Item(path, action, Other)];
    }
    assert paths[..|paths|] == paths;
    ShownNextPart(items, Block(action), paths);
  }

  function Reversed<T(!new)>(s: seq<T>): (r: seq<T>)
    ensures |r| == |s| && forall i :: 0 <= i < |s| ==> r[i] == s[|s| - 1 - i]
    ensures forall y :: y in r <==> y in s
    ensures NoDuplicates(s) ==> NoDuplicates(r)
  {
    var r := seq(|s|, i requires 0 <= i < |s| => s[|s| - 1 - i]);
    assert forall i :: 0 <= i < |s| ==> s[i] == r[|s| - 1 - i];
    r
  }

  lemma DirectoryDecisions(h: Rules, cp: Checkpoint, t: Tree, directories: seq<Path>)
    requires ListsDirectories(h, t, directories)
    ensures forall p :: Planned(h, cp, t, CreateDirectory, p) <==> p in cp.directories - Elements(directories)
    ensures forall p :: Planned(h, cp, t, RemoveDirectory, p) <==> p in Elements(directories) - cp.directories
  {
  }

  lemma FileDecisions(h: Rules, cp: Checkpoint, t: Tree, files: seq<Path>)
    requires ListsFiles(h, t, files)
    ensures forall p :: Planned(h, cp, t, Delete, p) ==> p in files && p !in cp.entries
    ensures forall a, p :: Planned(h, cp, t, a, p) && (a == Restore || a == Recreate) ==> p in cp.entries
    ensures forall p :: SkippedFor(h, cp, t, p).Some? ==> p in cp.entries.Keys + Elements(files)
  {
  }

  lemma SkipsInOrder(h: Rules, cp: Checkpoint, t: Tree, skipped: seq<Skip>, asked: set<Path>)
    requires SkipsAnswer(h, cp, t, skipped, asked)
    ensures NoDuplicates(skipped) && SkipsAnswer(h, cp, t, SortSkips(skipped), asked)
  {
  }

  /** Nothing but baseline files, added files and the two kinds of directories is planned. */
  lemma AllAnswered(h: Rules, cp: Checkpoint, t: Tree, written: set<Path>, files: seq<Path>, directories: seq<Path>,
                    plan: Plan, asked: set<Question>)
    requires ListsFiles(h, t, files) && ListsDirectories(h, t, directories)
    requires ItemsAnswer(h, cp, t, written, plan.items, asked)
    requires SkipsAnswer(h, cp, t, plan.skipped, cp.entries.Keys + Elements(files))
    requires forall p :: p in cp.entries ==> (Restore, p) in asked && (Recreate, p) in asked
    requires forall p :: p in files && p !in cp.entries ==> (Delete, p) in asked
    requires forall p :: p in cp.directories - Elements(directories) ==> (CreateDirectory, p) in asked
    requires forall p :: p in Elements(directories) - cp.directories ==> (RemoveDirectory, p) in asked
    ensures IsPlan(h, cp, t, written, plan)
  {
    FileDecisions(h, cp, t, files);
    DirectoryDecisions(h, cp, t, directories);
    hide Planned, SkippedFor, ListsFiles, ListsDirectories;
    forall a, p | Planned(h, cp, t, a, p) ensures (a, p) in asked {
      match a case _ =>
    }
  }

  /** Create what is missing, then remove what is new. */
  method PlanDirectoryChanges(h: Rules, cp: Checkpoint, t: Tree, written: set<Path>, directories: seq<Path>,
                              items0: seq<Item>, ghost asked0: set<Question>)
    returns (items: seq<Item>, ghost asked: set<Question>)
    requires ListsDirectories(h, t, directories)
    requires ItemsAnswer(h, cp, t, written, items0, asked0) && ShownSoFar(items0, Block(CreateDirectory), [])
    requires forall p :: (CreateDirectory, p) !in asked0 && (RemoveDirectory, p) !in asked0
    ensures ItemsAnswer(h, cp, t, written, items, asked)
    ensures forall a, p :: (a, p) in asked0 ==> (a, p) in asked
    ensures forall p :: p in cp.directories - Elements(directories) ==> (CreateDirectory, p) in asked
    ensures forall p :: p in Elements(directories) - cp.directories ==> (RemoveDirectory, p) in asked
    ensures InShownOrder(items)
  {
    hide ItemsAnswer, InPathOrder, PathsInOrder, Planned, ShownSoFar, InShownOrder, ListsDirectories;
    DirectoryDecisions(h, cp, t, directories);
    var present := Elements(directories);
    var missing := InOrderOfPath(cp.directories - present, CreateDirectory);
    items, asked := PlanDirectories(h, cp, t, written, missing, CreateDirectory, items0, asked0);
    var added := InOrderOfPath(present - cp.directories, RemoveDirectory);
    BackwardIsShown(added);
    added := Reversed(added);
    items, asked := PlanDirectories(h, cp, t, written, added, RemoveDirectory, items, asked);
    ShownIsOrdered(items, Block(RemoveDirectory) + 1);
  }

  lemma ShownIsOrdered(items: seq<Item>, block: nat)
    requires ShownSoFar(items, block, [])
    ensures InShownOrder(items)
  {
  }

  /** Compare a workspace with one baseline; nothing is written. */
  method PlanRollback(h: Rules, cp: Checkpoint, t: Tree, written: set<Path>) returns (plan: Plan)
    requires WellFormed(t)
    ensures IsPlan(h, cp, t, written, plan)
    ensures InShownOrder(plan.items) && SortedBy(plan.skipped, SkipLeq)
  {
    hide ItemsAnswer, SkipsAnswer, IsPlan, InPathOrder, WellFormed, Planned, SkippedFor;
    hide ShownSoFar, InShownOrder, ListsFiles, ListsDirectories, BaselineQuestions;
    var files, directories, _ := ScanWorkspace(h, t);
    ghost var asked: set<Question>;
    var items, skipped;
    items, skipped, asked := PlanBaseline(h, cp, t, written);
    BaselineQuestionsAre(cp.entries.Keys);
    items, skipped, asked := PlanAddedFiles(h, cp, t, written, files, items, skipped, asked);
    items, asked := PlanDirectoryChanges(h, cp, t, written, directories, items, asked);
    SkipsInOrder(h, cp, t, skipped, cp.entries.Keys + Elements(files));
    plan := Plan(items, SortSkips(skipped));
    AllAnswered(h, cp, t, written, files, directories, plan, asked);
  }
}
