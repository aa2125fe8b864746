/** A workspace as a tree of named nodes, and the filesystem calls that
    checkpoint.py makes on it. Paths are relative component sequences; the
    workspace root is the empty path and is always a directory. */
module FileTree {
  import opened Prelude

  type Path = seq<string>

  /** What a symbolic link finally names: a place inside the workspace, whether or
      not anything is there, or something outside it (a loop counts as outside). */
  datatype LinkTarget = Inside(path: Path) | Outside(directory: bool)

  /** `Link` and `Special` are leaves a scan never follows, reads or captures. */
  datatype Node =
    | Dir
    | File(content: Bytes, mode: nat, modified: int, readable: bool)
    | Link(target: LinkTarget)
    | Special

  type Tree = map<Path, Node>

  function Parent(p: Path): Path {
    if p == [] then [] else p[..|p| - 1]
  }

  function Get(t: Tree, p: Path): Option<Node> {
    if p in t then Some(t[p]) else None
  }

  predicate IsDir(t: Tree, p: Path) {
    p == [] || (p in t && t[p].Dir?)
  }

  predicate Hangs(t: Tree, p: Path) {
    p != [] && IsDir(t, Parent(p))
  }

  /** Every node hangs below a directory. */
  ghost predicate WellFormed(t: Tree) {
    forall p {:trigger Hangs(t, p)} :: p in t ==> Hangs(t, p)
  }

  lemma {:induction false} AncestorsAreDirs(t: Tree, p: Path, q: Path)
    requires WellFormed(t) && q in t && p < q
    ensures IsDir(t, p)
    decreases |q|
  {
    assert Hangs(t, q);
    if p != Parent(q) {
      assert Parent(q) != [];
      assert Parent(q) in t;
      assert p < Parent(q);
      AncestorsAreDirs(t, p, Parent(q));
    }
  }

  // ----- following links -----

  function Follow(t: Tree, r: Path): Option<Path> {
    if r in t && t[r].Link? then
      match t[r].target
      case Inside(x) => Some(x)
      case Outside(_) => None
    else Some(r)
  }

  /** Where a path leads once every link on the way is followed; `None` outside the workspace. */
  function RealPath(t: Tree, p: Path): Option<Path> {
    if p == [] then Some([])
    else
      match RealPath(t, Parent(p))
      case None => None
      case Some(d) => Follow(t, d + [p[|p| - 1]])
  }

  /** The directory entry a path names: links are followed on the way, not at the end. */
  function Located(t: Tree, p: Path): Option<Path> {
    if p == [] then Some([])
    else
      match RealPath(t, Parent(p))
      case None => None
      case Some(d) => Some(d + [p[|p| - 1]])
  }

  /** `is_dir()`, which follows a link. */
  predicate LeadsToDirectory(t: Tree, r: Path) {
    || IsDir(t, r)
    || (r in t && t[r].Link? &&
        match t[r].target
        case Inside(x) => IsDir(t, x)
        case Outside(directory) => directory)
  }

  predicate LinkAt(t: Tree, r: Path) {
    r in t && t[r].Link?
  }

  lemma {:induction false} RealPathWithoutLinks(t: Tree, p: Path)
    requires forall i | 1 <= i <= |p| :: !LinkAt(t, p[..i])
    ensures RealPath(t, p) == Some(p)
  {
    if p != [] {
      var d := Parent(p);
      forall i | 1 <= i <= |d| ensures !LinkAt(t, d[..i]) {
        assert d[..i] == p[..i];
      }
      RealPathWithoutLinks(t, d);
      assert d + [p[|p| - 1]] == p == p[..|p|];
    }
  }

  // ----- mkdir(parents=True, exist_ok=True) -----

  /** Make the parents, then the directory itself. What is there already will do if
      it leads to a directory. (A parent outside the workspace is never asked for.) */
  function Made(t: Tree, p: Path): Option<Tree> {
    if p == [] then Some(t)
    else
      match Made(t, Parent(p))
      case None => None
      case Some(t') =>
        match Located(t', p)
        case None => None
        case Some(r) =>
          if r !in t' then Some(t'[r := Dir])
          else if LeadsToDirectory(t', r) then Some(t')
          else None
  }

  lemma {:induction false} NewDirectoryKeepsPaths(t: Tree, r: Path, p: Path)
    requires r !in t
    ensures RealPath(t[r := Dir], p) == RealPath(t, p)
  {
    if p != [] {
      NewDirectoryKeepsPaths(t, r, Parent(p));
    }
  }

  /** Making directories overwrites nothing and leaves every path where it leads. */
  lemma {:induction false} MadeExtends(t: Tree, p: Path, q: Path)
    requires Made(t, p).Some?
    ensures var t' := Made(t, p).value;
            && (forall r :: r in t ==> r in t' && t'[r] == t[r])
            && (forall r :: r in t' && r !in t ==> t'[r] == Dir)
            && RealPath(t', q) == RealPath(t, q)
  {
    if p != [] {
      var t' := Made(t, Parent(p)).value;
      MadeExtends(t, Parent(p), q);
      var r := Located(t', p).value;
      if r !in t' {
        NewDirectoryKeepsPaths(t', r, q);
      }
    }
  }

  /** No prefix of `p` is taken by something that is not a directory. */
  predicate CanMakeDirectory(t: Tree, p: Path) {
    forall i | 1 <= i <= |p| :: p[..i] in t ==> t[p[..i]].Dir?
  }

  function Prefixes(p: Path): set<Path> {
    set i | 1 <= i <= |p| :: p[..i]
  }

  function WithDirectory(t: Tree, p: Path): Tree {
    t + map q | q in Prefixes(p) :: Dir
  }

  /** The target of a link at `r` that leads to no directory, nor to one of its own parents. */
  predicate PlainLink(t: Tree, r: Path, target: LinkTarget) {
    match target
    case Inside(x) => !IsDir(t, x) && !(x < r)
    case Outside(directory) => !directory
  }

  predicate PlainOnTheWay(t: Tree, p: Path) {
    forall i | 1 <= i <= |p| :: LinkAt(t, p[..i]) ==> PlainLink(t, p[..i], t[p[..i]].target)
  }

  lemma PrefixesOfParent(p: Path)
    requires p != []
    ensures Prefixes(p) == Prefixes(Parent(p)) + {p}
  {
    var d := Parent(p);
    assert forall i | 1 <= i <= |d| :: d[..i] == p[..i];
    forall q | q in Prefixes(d) ensures q in Prefixes(p) {
      var i :| 1 <= i <= |d| && q == d[..i];
      assert q == p[..i];
    }
    assert p == p[..|p|];
  }

  lemma PlainParent(t: Tree, p: Path)
    requires p != [] && PlainOnTheWay(t, p)
    ensures PlainOnTheWay(t, Parent(p))
  {
    var d := Parent(p);
    forall i | 1 <= i <= |d| && LinkAt(t, d[..i]) ensures PlainLink(t, d[..i], t[d[..i]].target) {
      assert d[..i] == p[..i];
    }
  }

  lemma CanMakeParent(t: Tree, p: Path)
    requires p != []
    ensures CanMakeDirectory(t, p) <==> CanMakeDirectory(t, Parent(p)) && (p in t ==> t[p].Dir?)
  {
    var d := Parent(p);
    assert forall i | 1 <= i <= |d| :: d[..i] == p[..i];
    assert p == p[..|p|];
  }

  /** Once its parents are made, a directory is located where its path says. */
  lemma LocatedUnderMade(t: Tree, p: Path)
    requires p != []
    ensures Located(WithDirectory(t, Parent(p)), p) == Some(p)
    ensures Get(WithDirectory(t, Parent(p)), p) == Get(t, p)
  {
    var d := Parent(p);
    var t' := WithDirectory(t, d);
    forall i | 1 <= i <= |d| ensures !LinkAt(t', d[..i]) {
      assert d[..i] in Prefixes(d);
    }
    RealPathWithoutLinks(t', d);
    assert d + [p[|p| - 1]] == p;
  }

  /** Without links to directories on the way, a directory is made exactly when no
      leaf is in the way, and then with all its parents. */
  lemma {:induction false} MadePlain(t: Tree, p: Path)
    requires PlainOnTheWay(t, p)
    ensures Made(t, p) == if CanMakeDirectory(t, p) then Some(WithDirectory(t, p)) else None
  {
    if p != [] {
      PlainParent(t, p);
      MadePlain(t, Parent(p));
      CanMakeParent(t, p);
      LocatedUnderMade(t, p);
      PlainAtTheEnd(t, p);
      WithOneMore(t, p);
      hide CanMakeDirectory, WithDirectory, PlainOnTheWay, Located;
    } else {
      assert WithDirectory(t, p) == t;
    }
  }

  lemma WithOneMore(t: Tree, p: Path)
    requires p != []
    ensures WithDirectory(t, p) == WithDirectory(t, Parent(p))[p := Dir]
    ensures p in t && t[p].Dir? ==> WithDirectory(t, p) == WithDirectory(t, Parent(p))
  {
    PrefixesOfParent(p);
    var made := WithDirectory(t, Parent(p));
    assert p !in Prefixes(Parent(p));
    assert WithDirectory(t, p) == made[p := Dir];
    if p in t && t[p].Dir? {
      assert made[p] == Dir;
      assert made[p := Dir] == made;
    }
  }

  lemma PlainAtTheEnd(t: Tree, p: Path)
    requires p != [] && PlainOnTheWay(t, p)
    ensures LeadsToDirectory(WithDirectory(t, Parent(p)), p) <==> p in t && t[p].Dir?
  {
    assert p == p[..|p|];
    assert forall q :: q in Prefixes(Parent(p)) ==> q < p;
    assert LinkAt(t, p[..|p|]) ==> PlainLink(t, p, t[p].target);
  }

  /** A directory that still holds anything at all cannot be removed. */
  predicate HasEntries(t: Tree, p: Path) {
    exists q | q in t :: p < q
  }

  /** The mutable filesystem below one workspace root. */
  class Workspace {
    var tree: Tree

    constructor (t: Tree)
      ensures tree == t
    {
      tree := t;
    }

    method MakeDirectory(p: Path) returns (ok: bool)
      modifies this
      ensures ok == Made(old(tree), p).Some?
      ensures tree == if ok then Made(old(tree), p).value else old(tree)
    {
      var made := Made(tree, p);
      ok := made.Some?;
      if ok {
        tree := made.value;
      }
    }

    /** Stage beside the target and rename over it: refused without a parent
        directory or onto a directory; any other existing leaf, a link included,
        is replaced. */
    method ReplaceFile(p: Path, file: Node) returns (ok: bool)
      requires Located(tree, p).Some?
      modifies this
      ensures var r := Located(old(tree), p).value;
              && ok == (IsDir(old(tree), Parent(r)) && !IsDir(old(tree), r))
              && tree == if ok then old(tree)[r := file] else old(tree)
    {
      var r := Located(tree, p).value;
      ok := IsDir(tree, Parent(r)) && !IsDir(tree, r);
      if ok {
        tree := tree[r := file];
      }
    }

    /** Remove a leaf, a link itself rather than what it names; an absent path is
        already removed. */
    method RemoveFile(p: Path) returns (ok: bool)
      requires Located(tree, p).Some?
      modifies this
      ensures var r := Located(old(tree), p).value;
              && ok == !IsDir(old(tree), r)
              && tree == if ok then old(tree) - {r} else old(tree)
    {
      var r := Located(tree, p).value;
      ok := !IsDir(tree, r);
      if ok {
        tree := tree - {r};
      }
    }

    /** Remove an empty directory; a link to a directory is refused, and anything
        that leads to no directory is left alone. */
    method RemoveDirectory(p: Path) returns (ok: bool)
      requires Located(tree, p).Some?
      modifies this
      ensures var r := Located(old(tree), p).value;
              && ok == !(LeadsToDirectory(old(tree), r) && (!IsDir(old(tree), r) || HasEntries(old(tree), r)))
              && tree == if ok && IsDir(old(tree), r) then old(tree) - {r} else old(tree)
    {
      var r := Located(tree, p).value;
      ok := true;
      if LeadsToDirectory(tree, r) {
        ok := IsDir(tree, r) && !HasEntries(tree, r);
        if ok {
          tree := tree - {r};
        }
      }
    }
  }
}
