/** Applying one rollback plan to a workspace, action by action. */
module Rollback {
  import opened Prelude
  import opened FileTree
  import opened Checkpoint

  datatype Code = WriteError | DeleteError | ReadError | Corrupt | PathUnsafe

  datatype Failure = Failure(path: Path, action: Action, code: Code)

  /** The stored baseline: manifest, blobs as they are found at apply time, and
      the modification time the host gives each file written back. */
  datatype Baseline = Baseline(host: Rules, cp: Checkpoint, blobs: Blobs, stamp: Path -> int)

  /** The five lists of completed paths. */
  datatype Completed = Completed(
    restored: seq<Path>, recreated: seq<Path>, deleted: seq<Path>, created: seq<Path>, removed: seq<Path>)
  {
    function Of(a: Action): seq<Path> {
      match a
      case Restore => restored
      case Recreate => recreated
      case Delete => deleted
      case CreateDirectory => created
      case RemoveDirectory => removed
    }

    function Add(a: Action, p: Path): Completed {
      match a
      case Restore => this.(restored := restored + [p])
      case Recreate => this.(recreated := recreated + [p])
      case Delete => this.(deleted := deleted + [p])
      case CreateDirectory => this.(created := created + [p])
      case RemoveDirectory => this.(removed := removed + [p])
    }
  }

  datatype RollbackResult = RollbackResult(completed: Completed, skipped: seq<Skip>, failures: seq<Failure>)

  // ----- order of actions -----

  function Phase(a: Action): nat {
    match a
    case CreateDirectory => 0
    case Restore => 1
    case Recreate => 1
    case Delete => 2
    case RemoveDirectory => 3
  }

  function DepthKey(it: Item): int {
    if it.action.RemoveDirectory? then -|it.path| else |it.path|
  }

  /** Directories before files, files before deletions, deletions before removals;
      shallow before deep, except that directories are removed deepest first. */
  predicate Before(a: Item, b: Item) {
    Phase(a.action) < Phase(b.action) || (Phase(a.action) == Phase(b.action) && DepthKey(a) < DepthKey(b))
  }

  predicate ItemLeq(a: Item, b: Item) {
    Before(a, b) || (!Before(b, a) && PathLeq(a.path, b.path))
  }

  lemma ItemOrder()
    ensures TotalPreorder(ItemLeq)
  {
    forall a, b ensures ItemLeq(a, b) || ItemLeq(b, a) {
      StringLeqTotal(PathText(a.path), PathText(b.path));
    }
    forall a, b, c | ItemLeq(a, b) && ItemLeq(b, c) ensures ItemLeq(a, c) {
      if !Before(a, c) {
        StringLeqTransitive(PathText(a.path), PathText(b.path), PathText(c.path));
      }
    }
  }

  ghost predicate InActionOrder(items: seq<Item>) {
    forall i, j :: 0 <= i < j < |items| ==> !Before(items[j], items[i])
  }

  function OrderedActions(items: seq<Item>): (r: seq<Item>)
    ensures |r| == |items|
    ensures InActionOrder(r) && SortedBy(r, ItemLeq)
    ensures forall it :: it in r <==> it in items
    ensures NoDuplicates(items) ==> NoDuplicates(r)
  {
    ItemOrder();
    Sorted(items, ItemLeq)
  }

  // ----- one action -----

  datatype Outcome = Outcome(tree: Tree, error: Option<Code>)

  /** The content rollback may write back at `p`, or why it may not. */
  function StoredContent(b: Baseline, p: Path): Result<Bytes, Code> {
    if p !in b.cp.entries || !b.cp.entries[p].state.Captured? then Err(Corrupt)
    else
      var digest := b.cp.entries[p].state.digest;
      if digest !in b.blobs then Err(ReadError)
      else if b.host.hash(b.blobs[digest]) != digest then Err(Corrupt)
      else Ok(b.blobs[digest])
  }

  function RestoredFile(b: Baseline, p: Path): Node
    requires StoredContent(b, p).Ok?
  {
    File(StoredContent(b, p).value, b.cp.entries[p].mode, b.stamp(p), true)
  }

  /** A planned path is checked again before its action: where its entry is, or why
      the action is refused. */
  function SafeTarget(t: Tree, p: Path): Result<Path, Code> {
    if !Addressable(p) then Err(Corrupt)
    else
      match Located(t, p)
      case None => Err(PathUnsafe)
      case Some(r) => Ok(r)
  }

  function ApplyAction(b: Baseline, it: Item, t: Tree): Outcome {
    match SafeTarget(t, it.path)
    case Err(code) => Outcome(t, Some(code))
    case Ok(r) =>
      match it.action
      case CreateDirectory => CreateAt(it.path, t)
      case RemoveDirectory => RemoveAt(r, t)
      case Delete => DeleteAt(r, t)
      case _ => RestoreAt(b, it.path, r, t)
  }

  function CreateAt(p: Path, t: Tree): Outcome {
    match Made(t, p)
    case None => Outcome(t, Some(WriteError))
    case Some(t') => Outcome(t', None)
  }

  function RemoveAt(r: Path, t: Tree): Outcome {
    if !LeadsToDirectory(t, r) then Outcome(t, None)
    else if !IsDir(t, r) || HasEntries(t, r) then Outcome(t, Some(DeleteError))
    else Outcome(t - {r}, None)
  }

  function DeleteAt(r: Path, t: Tree): Outcome {
    if IsDir(t, r) then Outcome(t, Some(DeleteError)) else Outcome(t - {r}, None)
  }

  /** Write the content of baseline file `p` at `r`, where the tree puts that path. */
  function RestoreAt(b: Baseline, p: Path, r: Path, t: Tree): Outcome {
    match StoredContent(b, p)
    case Err(code) => Outcome(t, Some(code))
    case Ok(_) =>
      match Made(t, Parent(p))
      case None => Outcome(t, Some(WriteError))
      case Some(t') =>
        if IsDir(t', r) || !IsDir(t', Parent(r)) then Outcome(t', Some(WriteError))
        else Outcome(t'[r := RestoredFile(b, p)], None)
  }

  // ----- the whole plan -----

  datatype Progress = Progress(tree: Tree, completed: Completed, failures: seq<Failure>)

  function Start(t: Tree): Progress {
    Progress(t, Completed([], [], [], [], []), [])
  }

  function ApplyNext(b: Baseline, it: Item, s: Progress): Progress {
    var outcome := ApplyAction(b, it, s.tree);
    match outcome.error
    case None => Progress(outcome.tree, s.completed.Add(it.action, it.path), s.failures)
    case Some(code) => Progress(outcome.tree, s.completed, s.failures + [Failure(it.path, it.action, code)])
  }

  function ApplyItems(b: Baseline, items: seq<Item>, s: Progress): Progress {
    if items == [] then s
    else ApplyNext(b, items[|items| - 1], ApplyItems(b, items[..|items| - 1], s))
  }

  /** Write one baseline file back, creating parents when needed. */
  method RestoreFile(ws: Workspace, b: Baseline, p: Path) returns (error: Option<Code>)
    requires p != [] && Located(ws.tree, p).Some?
    modifies ws
    ensures Outcome(ws.tree, error) == RestoreAt(b, p, Located(old(ws.tree), p).value, old(ws.tree))
  {
    var content := StoredContent(b, p);
    if content.Err? {
      return Some(content.error);
    }
    ghost var t := ws.tree;
    var ok := ws.MakeDirectory(Parent(p));
    if !ok {
      return Some(WriteError);
    }
    MadeExtends(t, Parent(p), Parent(p));
    ok := ws.ReplaceFile(p, RestoredFile(b, p));
    return if ok then None else Some(WriteError);
  }

  method PerformAction(ws: Workspace, b: Baseline, it: Item) returns (error: Option<Code>)
    requires it.path != []
    modifies ws
    ensures Outcome(ws.tree, error) == ApplyAction(b, it, old(ws.tree))
  {
    var target := SafeTarget(ws.tree, it.path);
    if target.Err? {
      return Some(target.error);
    }
    var ok;
    match it.action
    case CreateDirectory =>
      ok := ws.MakeDirectory(it.path);
      error := if ok then None else Some(WriteError);
    case RemoveDirectory =>
      ok := ws.RemoveDirectory(it.path);
      error := if ok then None else Some(DeleteError);
    case Delete =>
      ok := ws.RemoveFile(it.path);
      error := if ok then None else Some(DeleteError);
    case _ =>
      error := RestoreFile(ws, b, it.path);
  }

  /** Execute one plan; a failed action never stops the rest. */
  method ApplyRollback(ws: Workspace, b: Baseline, plan: Plan) returns (r: RollbackResult)
    requires forall it :: it in plan.items ==> it.path != []
    modifies ws
    ensures Progress(ws.tree, r.completed, r.failures) ==
            ApplyItems(b, OrderedActions(plan.items), Start(old(ws.tree)))
    ensures r.skipped == plan.skipped
  {
    var items := OrderedActions(plan.items);
    var completed, failures := Completed([], [], [], [], []), [];
    for k := 0 to |items|
      invariant Progress(ws.tree, completed, failures) == ApplyItems(b, items[..k], Start(old(ws.tree)))
    {
      var it := items[k];
      assert items[..k + 1][..k] == items[..k];
      assert it in plan.items;
      var error := PerformAction(ws, b, it);
      match error
      case None => completed := completed.Add(it.action, it.path);
      case Some(code) => failures := failures + [Failure(it.path, it.action, code)];
    }
    assert items[..|items|] == items;
    r := RollbackResult(completed, plan.skipped, failures);
  }
}
