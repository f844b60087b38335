/** An abstract filesystem: the part of the operating system that the
    project materializer touches through `pathlib` and `shutil`.

    Paths are sequences of segments relative to one root; the root `[]` is
    always a directory. A state records the regular files with their text,
    the directories, and the paths whose mode was set to 0o755. An
    operation that would raise in Python returns `ok == false`. */
module FileSystem {

  type Path = seq<string>

  datatype Option<T> = None | Some(value: T)

  datatype Tree = Tree(files: map<Path, string>, dirs: set<Path>, exec: set<Path>)

  /** The state after an operation and whether it completed; `ok == false`
      means Python raised, and `tree` is what was left behind. */
  datatype Outcome = Outcome(ok: bool, tree: Tree)

  /** `Path.is_dir()`: the root or a recorded directory. */
  predicate IsDir(t: Tree, p: Path) {
    p == [] || p in t.dirs
  }

  /** `Path.exists()`: true for files and directories alike. */
  predicate Exists(t: Tree, p: Path) {
    IsDir(t, p) || p in t.files
  }

  /** `Path.parent` of a non-root path: the path without its last segment. */
  function Parent(p: Path): (q: Path)
    requires p != []
    ensures q < p && |q| == |p| - 1
  {
    p[..|p| - 1]
  }

  /** Every file and directory hangs below existing directories, and only
      existing paths carry an executable mode. */
  ghost predicate Valid(t: Tree) {
    && [] !in t.files
    && [] !in t.dirs
    && t.files.Keys !! t.dirs
    && (forall p, k :: p in t.files && 0 < k < |p| ==> p[..k] in t.dirs)
    && (forall p, k :: p in t.dirs && 0 < k < |p| ==> p[..k] in t.dirs)
    && t.exec <= t.files.Keys + t.dirs + {[]}
  }

  /** `any(p.iterdir())` for a directory `p`: something lies below it. */
  predicate HasEntries(t: Tree, p: Path) {
    (exists q :: q in t.files && p < q) || (exists q :: q in t.dirs && p < q)
  }

  /** Some non-empty prefix of `p`, `p` included, is a regular file. */
  predicate Blocked(t: Tree, p: Path) {
    exists k :: 0 < k <= |p| && p[..k] in t.files
  }

  /** `p.mkdir(parents=True, exist_ok=True)`: fails, changing nothing, when
      a file stands on the way (NotADirectoryError or FileExistsError);
      otherwise every non-empty prefix of `p` is a directory afterwards. */
  function Mkdir(t: Tree, p: Path): (o: Outcome)
    ensures o.ok <==> !Blocked(t, p)
    ensures !o.ok ==> o.tree == t
    ensures o.ok ==> forall k :: 0 < k <= |p| ==> p[..k] in o.tree.dirs
    ensures o.tree.files == t.files && o.tree.exec == t.exec && t.dirs <= o.tree.dirs
    ensures forall d :: d in o.tree.dirs && d !in t.dirs ==> d != [] && d <= p
  {
    if Blocked(t, p) then Outcome(false, t)
    else Outcome(true, t.(dirs := t.dirs + set k | 0 < k <= |p| :: p[..k]))
  }

  /** `p.write_text(s)` / `open(p, 'w')`: fails when `p` is a directory or
      its parent is not one; otherwise replaces the content of `p` and keeps
      its mode. */
  function Write(t: Tree, p: Path, s: string): (o: Outcome)
    ensures o.ok <==> p != [] && p !in t.dirs && IsDir(t, Parent(p))
    ensures o.ok ==> o.tree == t.(files := t.files[p := s])
    ensures !o.ok ==> o.tree == t
  {
    if p == [] || p in t.dirs || !IsDir(t, Parent(p)) then Outcome(false, t)
    else Outcome(true, t.(files := t.files[p := s]))
  }

  /** `open(p).read()`: the text of a regular file; a missing path or a
      directory raises. */
  function Read(t: Tree, p: Path): (r: Option<string>)
    ensures r.Some? <==> p in t.files
    ensures r.Some? ==> r.value == t.files[p]
  {
    if p in t.files then Some(t.files[p]) else None
  }

  /** `shutil.rmtree(p)`: fails on a missing path or a regular file;
      otherwise removes `p` and everything below it. */
  function Rmtree(t: Tree, p: Path): (o: Outcome)
    ensures o.ok <==> IsDir(t, p)
    ensures !o.ok ==> o.tree == t
    ensures o.ok ==> forall q :: p <= q ==> q !in o.tree.files && q !in o.tree.dirs && q !in o.tree.exec
    ensures forall q :: !(o.ok && p <= q) ==>
      && (q in o.tree.files <==> q in t.files)
      && (q in t.files ==> o.tree.files[q] == t.files[q])
      && (q in o.tree.dirs <==> q in t.dirs)
      && (q in o.tree.exec <==> q in t.exec)
  {
    if !IsDir(t, p) then Outcome(false, t)
    else
      Outcome(true, Tree(
        map q | q in t.files && !(p <= q) :: t.files[q],
        set q | q in t.dirs && !(p <= q),
        set q | q in t.exec && !(p <= q)))
  }

  /** `p.chmod(0o755)`: fails on a missing path. */
  function Chmod(t: Tree, p: Path): (o: Outcome)
    ensures o.ok <==> Exists(t, p)
    ensures o.tree.files == t.files && o.tree.dirs == t.dirs
    ensures o.tree.exec == if o.ok then t.exec + {p} else t.exec
  {
    if Exists(t, p) then Outcome(true, t.(exec := t.exec + {p})) else Outcome(false, t)
  }

  lemma MkdirKeepsValid(t: Tree, p: Path)
    requires Valid(t)
    ensures Valid(Mkdir(t, p).tree)
  {
    var o := Mkdir(t, p);
    if o.ok {
      forall d, k | d in o.tree.dirs && 0 < k < |d|
        ensures d[..k] in o.tree.dirs
      {
        if d !in t.dirs {
          assert d[..k] == p[..k];
        }
      }
      forall d | d in o.tree.dirs
        ensures d !in t.files
      {
        if d !in t.dirs {
          assert d == p[..|d|];
        }
      }
    }
  }

  lemma WriteKeepsValid(t: Tree, p: Path, s: string)
    requires Valid(t)
    ensures Valid(Write(t, p, s).tree)
  {
    var o := Write(t, p, s);
    if o.ok {
      forall q, k | q in o.tree.files && 0 < k < |q|
        ensures q[..k] in o.tree.dirs
      {
        if q == p {
          if k == |p| - 1 {
            assert q[..k] == Parent(p);
          } else {
            assert q[..k] == Parent(p)[..k];
          }
        }
      }
    }
  }

  lemma RmtreeKeepsValid(t: Tree, p: Path)
    requires Valid(t)
    ensures Valid(Rmtree(t, p).tree)
  {
  }

  lemma ChmodKeepsValid(t: Tree, p: Path)
    requires Valid(t)
    ensures Valid(Chmod(t, p).tree)
  {
  }

  /** The filesystem a program sees: one mutable state that every call
      updates in place. */
  class Disk {
    var tree: Tree

    constructor (initial: Tree)
      ensures tree == initial
    {
      tree := initial;
    }

    method MakeDirs(p: Path) returns (ok: bool)
      modifies this
      ensures Outcome(ok, tree) == Mkdir(old(tree), p)
    {
      var o := Mkdir(tree, p);
      ok, tree := o.ok, o.tree;
    }

    method WriteText(p: Path, s: string) returns (ok: bool)
      modifies this
      ensures Outcome(ok, tree) == Write(old(tree), p, s)
    {
      var o := Write(tree, p, s);
      ok, tree := o.ok, o.tree;
    }

    method RemoveTree(p: Path) returns (ok: bool)
      modifies this
      ensures Outcome(ok, tree) == Rmtree(old(tree), p)
    {
      var o := Rmtree(tree, p);
      ok, tree := o.ok, o.tree;
    }

    method SetExecutable(p: Path) returns (ok: bool)
      modifies this
      ensures Outcome(ok, tree) == Chmod(old(tree), p)
    {
      var o := Chmod(tree, p);
      ok, tree := o.ok, o.tree;
    }
  }
}
