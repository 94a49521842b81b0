/**
 * POSIX path strings as `os.path` treats them: `join`, `dirname`, the directories
 * `os.makedirs` creates, and the relative names `os.walk` plus `os.path.relpath`
 * produce for the files under a root.
 */
module Paths {

  type Path = string

  predicate AllSlashes(s: string) {
    forall k :: 0 <= k < |s| ==> s[k] == '/'
  }

  predicate HasPrefix(p: string, pre: string) {
    |pre| <= |p| && p[..|pre|] == pre
  }

  /** Index of the last '/' in `p`, or -1 when there is none (`str.rfind`). */
  function LastSlash(p: string): (i: int)
    ensures -1 <= i < |p|
    ensures i >= 0 ==> p[i] == '/'
    ensures forall k :: i < k < |p| ==> p[k] != '/'
  {
    if p == [] then -1
    else if p[|p| - 1] == '/' then |p| - 1
    else LastSlash(p[..|p| - 1])
  }

  /** `s.rstrip('/')`. */
  function RStripSlashes(s: string): (r: string)
    ensures |r| <= |s| && r == s[..|r|]
    ensures r == [] || r[|r| - 1] != '/'
    ensures forall k :: |r| <= k < |s| ==> s[k] == '/'
  {
    if s == [] || s[|s| - 1] != '/' then s else RStripSlashes(s[..|s| - 1])
  }

  /**
   * `os.path.dirname`: everything up to the last '/', with trailing slashes
   * removed unless the head consists of slashes only.
   */
  function Dirname(p: string): (r: string)
    ensures |r| <= |p| && r == p[..|r|]
    ensures (forall k :: 0 <= k < |p| ==> p[k] != '/') ==> r == []
    ensures r == [] || AllSlashes(r) || r[|r| - 1] != '/'
  {
    var head := p[..LastSlash(p) + 1];
    if head != [] && !AllSlashes(head) then RStripSlashes(head) else head
  }

  /** `os.path.join(a, b)` for two components. */
  function Join(a: string, b: string): (r: string)
    ensures |b| <= |r| && r[|r| - |b|..] == b
    ensures b != [] && b[0] == '/' ==> r == b
  {
    if b != [] && b[0] == '/' then b
    else if a == [] || a[|a| - 1] == '/' then a + b
    else a + "/" + b
  }

  /** A single path component: non-empty and free of '/'. */
  predicate IsName(name: string) {
    name != [] && forall k :: 0 <= k < |name| ==> name[k] != '/'
  }

  /**
   * Joining a directory as `dirname` returns it with a plain name and taking
   * `dirname` again gives the directory back.
   */
  lemma DirnameOfJoin(dir: string, name: string)
    requires IsName(name)
    requires dir == [] || AllSlashes(dir) || dir[|dir| - 1] != '/'
    ensures Dirname(Join(dir, name)) == dir
  {
    var p := Join(dir, name);
    if dir == [] {
      assert p == name;
      assert LastSlash(p) == -1;
    } else if AllSlashes(dir) {
      assert p == dir + name;
      assert p[|dir| - 1] == '/';
      assert LastSlash(p) == |dir| - 1;
      assert p[..|dir|] == dir;
    } else {
      assert p == dir + "/" + name;
      assert p[|dir|] == '/';
      assert LastSlash(p) == |dir|;
      var head := p[..|dir| + 1];
      assert head == dir + "/";
      assert !AllSlashes(head) by { assert head[|dir| - 1] != '/'; }
      assert head[..|dir|] == dir;
      assert RStripSlashes(head) == RStripSlashes(dir);
    }
  }

  /** A temporary file named in the target's directory lies in that same directory. */
  lemma SiblingHasSameDirname(path: string, name: string)
    requires IsName(name)
    ensures Dirname(Join(Dirname(path), name)) == Dirname(path)
  {
    DirnameOfJoin(Dirname(path), name);
  }

  /**
   * The directories `os.makedirs(dir)` leaves in place: `dir` and every
   * ancestor above it.
   */
  function Ancestry(dir: string): (r: set<string>)
    ensures dir in r
    ensures forall x :: x in r ==> HasPrefix(dir, x)
    ensures dir != [] ==> [] !in r
    decreases |dir|
  {
    var up := Dirname(dir);
    {dir} + if up != [] && |up| < |dir| then Ancestry(up) else {}
  }

  /** The prefix `os.walk(root)` puts before every path below `root`. */
  function DirPrefix(root: string): string {
    if root != [] && root[|root| - 1] == '/' then root else root + "/"
  }

  /**
   * `os.path.join(os.path.relpath(dirpath, root), filename)` for a file at
   * `rel` below the root: a file directly in the root has directory `.`,
   * so its walked name is `./name`.
   */
  function WalkName(rel: string): (w: string)
    ensures '/' in w
  {
    if '/' in rel then rel else "./" + rel
  }

  /** The set of walked relative names of the files in `names` below `root`. */
  function Walked(root: string, names: set<Path>): (r: set<string>)
    ensures forall w :: w in r ==> '/' in w
  {
    if root == [] then {}
    else
      set p | p in names && HasPrefix(p, DirPrefix(root)) :: WalkName(p[|DirPrefix(root)|..])
  }

  /** A relative path with no directory part is never among the walked names. */
  lemma TopLevelNeverWalked(root: string, names: set<Path>, rel: string)
    requires '/' !in rel
    ensures rel !in Walked(root, names)
  {
  }

  /** A file in a subdirectory of the root is walked under its own relative path. */
  lemma NestedFileWalked(root: string, names: set<Path>, rel: string)
    requires root != [] && '/' in rel
    requires DirPrefix(root) + rel in names
    ensures rel in Walked(root, names)
  {
    var p := DirPrefix(root) + rel;
    assert HasPrefix(p, DirPrefix(root));
    assert p[|DirPrefix(root)|..] == rel;
    assert WalkName(rel) == rel;
  }
}
