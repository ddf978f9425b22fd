/**
 The file system as a map from canonical paths to entries, and the system calls the installer
 makes as functions on it.

 `deny` in Env is the set of paths at which the kernel refuses this process the creation, removal
 or replacement of an entry, and `unreadable` the set of files it may not open; both are arbitrary.
 */
module FileSystem {
  import opened Wrappers
  import opened Paths

  type Mode = bv16

  const CHECKED_MODE: Mode := 0x1ED   // octal 0755, the bits that instchk looks at
  const ACCESS_MODE: Mode := 0x1FF    // octal 0777
  const FULL_MODE: Mode := 0xFFF      // octal 07777

  datatype Node =
    | File(content: string, mode: Mode, uid: int, gid: int)
    | Dir(mode: Mode, uid: int, gid: int)
    | Link(target: string)

  type FS = map<Path, Node>

  /** What does not change while one of the three programs runs. */
  datatype Env = Env(
    cwd: Path,
    uid: int,
    gid: int,
    umask: Mode,
    deny: set<Path>,
    unreadable: set<Path>,
    users: map<string, int>,
    groups: map<string, int>,
    fakeRoot: Option<string>,
    execSuffix: string,
    dlibSuffix: string)

  /** A fake root is only ever set to a non-empty C string. */
  predicate EnvOk(env: Env) {
    env.fakeRoot.Some? ==> env.fakeRoot.value != "" && '\0' !in env.fakeRoot.value
  }

  function At(fs: FS, p: Path): Option<Node> {
    if p in fs then Some(fs[p]) else None
  }

  predicate IsDir(fs: FS, p: Path) {
    p in fs && fs[p].Dir?
  }

  /** An entry that is not a directory. */
  predicate IsLeaf(fs: FS, p: Path) {
    p in fs && !fs[p].Dir?
  }

  predicate ParentIsDir(fs: FS, p: Path) {
    p != [] && IsDir(fs, Parent(p))
  }

  /** The root is a directory and every other entry lies in one. */
  ghost predicate TreeOk(fs: FS) {
    && IsDir(fs, [])
    && forall p {:trigger ParentIsDir(fs, p)} :: p in fs && p != [] ==> ParentIsDir(fs, p)
  }

  lemma {:induction false} PrefixesAreDirs(fs: FS, q: Path, p: Path)
    requires TreeOk(fs) && IsDir(fs, p) && q <= p
    ensures IsDir(fs, q)
    decreases |p|
  {
    if |q| < |p| {
      assert ParentIsDir(fs, p);
      PrefixesAreDirs(fs, q, Parent(p));
    } else {
      assert q == p;
    }
  }

  /** Replacing a file, or giving a directory another node, or adding an entry to a directory. */
  lemma {:induction false} TreeWith(fs: FS, p: Path, node: Node)
    requires TreeOk(fs) && (if p in fs then IsDir(fs, p) ==> node.Dir? else ParentIsDir(fs, p))
    ensures TreeOk(fs[p := node])
  {
    var now := fs[p := node];
    forall q | q in now && q != [] ensures ParentIsDir(now, q) {
      assert ParentIsDir(fs, q);
    }
  }

  /** Removing what no entry lies in. */
  lemma {:induction false} TreeWithout(fs: FS, p: Path)
    requires TreeOk(fs) && p != [] && (IsLeaf(fs, p) || IsEmptyDir(fs, p))
    ensures TreeOk(fs - {p})
  {
    var now := fs - {p};
    forall q | q in now && q != [] ensures ParentIsDir(now, q) {
      assert ParentIsDir(fs, q);
    }
  }

  // --- Routes -------------------------------------------------------------------------------

  /** Everything that a route passes through is a directory; the empty string leads nowhere. */
  predicate Reached(fs: FS, r: Route) {
    r.named && forall p :: p in r.through ==> IsDir(fs, p)
  }

  /** None of these is a symbolic link. */
  predicate LinkFree(fs: FS, ps: set<Path>) {
    forall p :: p in ps && p in fs ==> !fs[p].Link?
  }

  /** What is reached is the root, or there, or lies in a directory. */
  lemma {:induction false} ReachedHasParent(fs: FS, r: Route)
    requires TreeOk(fs) && Grounded(r) && Reached(fs, r)
    ensures r.at == [] || IsDir(fs, Parent(r.at))
  {
    if r.at != [] {
      var q :| q in r.through && Parent(r.at) <= q;
      PrefixesAreDirs(fs, Parent(r.at), q);
    }
  }

  // --- Directories --------------------------------------------------------------------------

  function NewDir(env: Env, perm: Mode): Node {
    Dir(perm & ACCESS_MODE & !env.umask, env.uid, env.gid)
  }

  predicate CanCreate(env: Env, fs: FS, r: Route) {
    Reached(fs, r) && r.at !in fs && ParentIsDir(fs, r.at) && r.at !in env.deny
  }

  /** mkdir: an existing entry, a missing directory on the way or a refusal leaves everything as it was. */
  function MkDir(env: Env, fs: FS, r: Route, node: Node): FS {
    if CanCreate(env, fs, r) then fs[r.at := node] else fs
  }

  /** mkdir on each route in turn, whatever becomes of the ones before. */
  function MkDirs(env: Env, fs: FS, rs: seq<Route>, node: Node): FS
    decreases |rs|
  {
    if rs == [] then fs
    else MkDir(env, MkDirs(env, fs, rs[..|rs| - 1], node), rs[|rs| - 1], node)
  }

  /** `p` is the place of one of the routes. */
  predicate Visits(rs: seq<Route>, p: Path) {
    exists k :: 0 <= k < |rs| && rs[k].at == p
  }

  predicate IsEmptyDir(fs: FS, p: Path) {
    IsDir(fs, p) && forall q :: q in fs && q != [] ==> Parent(q) != p
  }

  /** rmdir refuses a name whose last component is ".". With ".." the directory is not empty. */
  predicate CanRmdir(env: Env, fs: FS, r: Route) {
    Reached(fs, r) && !r.dot && r.at != [] && r.at !in env.deny && IsEmptyDir(fs, r.at)
  }

  // --- Files --------------------------------------------------------------------------------

  predicate Readable(env: Env, fs: FS, r: Route) {
    Reached(fs, r) && r.at in fs && fs[r.at].File? && r.at !in env.unreadable
  }

  /** Whether opening for writing can work: it truncates a file or creates one. */
  predicate Writable(env: Env, fs: FS, r: Route) {
    Reached(fs, r) && if r.at in fs then fs[r.at].File? else CanCreate(env, fs, r)
  }

  /** The empty file that opening for writing leaves; an existing file keeps its owner and mode. */
  function Truncated(env: Env, fs: FS, r: Route): Node
    requires Writable(env, fs, r)
  {
    if r.at in fs then File("", fs[r.at].mode, fs[r.at].uid, fs[r.at].gid)
    else File("", 0x1B6 & !env.umask, env.uid, env.gid)
  }

  predicate CanRename(env: Env, fs: FS, from: Route, to: Route) {
    && Reached(fs, from) && Reached(fs, to)
    && IsLeaf(fs, from.at)
    && from.at !in env.deny && to.at !in env.deny
    && ParentIsDir(fs, to.at) && !IsDir(fs, to.at)
  }

  function Rename(fs: FS, from: Path, to: Path): FS
    requires from in fs
  {
    (fs - {from})[to := fs[from]]
  }

  lemma {:induction false} TreeRename(env: Env, fs: FS, from: Route, to: Route)
    requires TreeOk(fs) && CanRename(env, fs, from, to)
    ensures TreeOk(Rename(fs, from.at, to.at))
  {
    TreeWithout(fs, from.at);
    if from.at == to.at {
      assert Rename(fs, from.at, to.at) == fs;
    } else {
      TreeWith(fs - {from.at}, to.at, fs[from.at]);
    }
  }

  predicate CanUnlink(env: Env, fs: FS, r: Route) {
    Reached(fs, r) && IsLeaf(fs, r.at) && r.at !in env.deny
  }

  /** chown acts on files and directories; what a link leads to is not modelled. */
  predicate CanChown(fs: FS, r: Route) {
    Reached(fs, r) && r.at in fs && !fs[r.at].Link?
  }

  /** stat: what is there, if it is reached. */
  function Seen(fs: FS, r: Route): Option<Node> {
    if Reached(fs, r) then At(fs, r.at) else None
  }

  function Chowned(node: Node, uid: int, gid: int): Node
    requires !node.Link?
  {
    match node
    case File(content, mode, _, _) => File(content, mode, uid, gid)
    case Dir(mode, _, _) => Dir(mode, uid, gid)
  }

  function WithMode(node: Node, mode: Mode): Node
    requires node.File?
  {
    File(node.content, mode, node.uid, node.gid)
  }

  function WithContent(node: Node, content: string): Node
    requires node.File?
  {
    File(content, node.mode, node.uid, node.gid)
  }

  // --- Facts about MkDirs -------------------------------------------------------------------

  lemma {:induction false} MkDirsFrame(env: Env, fs: FS, rs: seq<Route>, node: Node)
    requires TreeOk(fs) && node.Dir?
    ensures TreeOk(MkDirs(env, fs, rs, node))
    ensures forall p :: p in fs ==> At(MkDirs(env, fs, rs, node), p) == At(fs, p)
    ensures forall p :: p in MkDirs(env, fs, rs, node) && p !in fs ==>
              MkDirs(env, fs, rs, node)[p] == node && Visits(rs, p) && p !in env.deny && p != []
    decreases |rs|
  {
    if rs != [] {
      var init, last := rs[..|rs| - 1], rs[|rs| - 1];
      MkDirsFrame(env, fs, init, node);
      var mid := MkDirs(env, fs, init, node);
      if CanCreate(env, mid, last) { TreeWith(mid, last.at, node); }
      forall p | Visits(init, p) ensures Visits(rs, p) {
        var k :| 0 <= k < |init| && init[k].at == p;
        assert rs[k].at == p;
      }
      assert Visits(rs, last.at);
    }
  }
}
