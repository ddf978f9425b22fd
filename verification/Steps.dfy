/**
 What one call of install, install_check or deinstall does to the file system, for every item and
 whatever the system calls answer. The programs in Engine.dfy are proved to take these steps, and
 the theorems about whole runs are about sequences of them.
 */
module Steps {
  import opened Wrappers
  import opened Paths
  import opened FileSystem
  import opened Items
  import opened FileCopy

  /**
   An item whose names, owner and paths are settled. `gone` is the route by which a link or a directory is
   removed again; a directory is given its owner, and looked at, by the route `seen`.
   */
  datatype Act =
    | PutFile(src: Route, tmp: Route, dst: Route, uid: int, gid: int, perm: Mode)
    | PutLink(dir: Route, name: Route, gone: Route, text: string)
    | PutDir(chain: seq<Route>, seen: Route, gone: Route, uid: int, gid: int, perm: Mode)

  function Lookup(name: Option<string>, names: map<string, int>, own: int): Option<int> {
    match name
    case None => Some(own)
    case Some(n) => if n in names then Some(names[n]) else None
  }

  function Owner(env: Env, e: Entry): Option<int> { Lookup(e.owner, env.users, env.uid) }

  function Group(env: Env, e: Entry): Option<int> { Lookup(e.group, env.groups, env.gid) }

  predicate OwnersKnown(env: Env, e: Entry) {
    Owner(env, e).Some? && Group(env, e).Some?
  }

  function TemporaryFor(env: Env, dst: string): Route {
    FileRoute(env.cwd, Format(dst + TEMPORARY))
  }

  /** The path that deinst_link and instchk_link use: the two strings joined. */
  function JoinedRoute(env: Env, t: Target): Route
    requires t.LinkTarget?
  {
    FileRoute(env.cwd, Format(t.dir + "/" + t.dst))
  }

  function CopyAct(env: Env, e: Entry, src: string, dst: string): Act
    requires OwnersKnown(env, e)
  {
    PutFile(FileRoute(env.cwd, src), TemporaryFor(env, dst), FileRoute(env.cwd, dst),
            Owner(env, e).value, Group(env, e).value, e.perm)
  }

  function LinkAct(env: Env, t: Target): Act
    requires t.LinkTarget?
  {
    PutLink(FileRoute(env.cwd, t.dir), FileRoute(Canon(env.cwd, t.dir), t.dst), JoinedRoute(env, t), t.src)
  }

  function DirAct(env: Env, e: Entry, dir: string): Act
    requires OwnersKnown(env, e)
  {
    PutDir(Routes(env.cwd, MkdirStrings(dir)), FileRoute(env.cwd, dir), DirRoute(env.cwd, dir),
           Owner(env, e).value, Group(env, e).value, e.perm)
  }

  /** What is to be done for an item, if its names translate, its owners exist and its directory fits a buffer. */
  function Plan(env: Env, fs: FS, e: Entry): Option<Act> {
    var t := Translate(env, fs, e);
    if t.None? then None
    else match t.value
      case CopyTarget(src, dst) => if OwnersKnown(env, e) then Some(CopyAct(env, e, src, dst)) else None
      case LinkTarget(_, _, _) => Some(LinkAct(env, t.value))
      case DirTarget(dir) =>
        if OwnersKnown(env, e) && |dir| < MAX_PATHLEN then Some(DirAct(env, e, dir)) else None
  }

  // --- Symbolic links ---------------------------------------------------------------------------

  /** Installing leads over `p`: if that were a link, the kernel would follow it. */
  ghost predicate Crosses(act: Act, p: Path) {
    match act
    case PutFile(src, tmp, dst, _, _, _) => p in Followed(src) || p in Followed(tmp) || p in dst.through
    case PutLink(dir, name, _, _) => p in Followed(dir) || p in name.through
    case PutDir(chain, seen, _, _, _, _) => p in Followed(seen) || exists k :: 0 <= k < |chain| && p in chain[k].through
  }

  predicate IsLink(fs: FS, p: Path) {
    p in fs && fs[p].Link?
  }

  ghost predicate CrossesNoLink(fs: FS, act: Act) {
    forall p :: Crosses(act, p) ==> !IsLink(fs, p)
  }

  /** No library file that the item names is a link or reached over one. */
  ghost predicate LibrariesPlain(env: Env, fs: FS, e: Entry) {
    forall r :: r in VirtualRoutes(env, e) ==> LinkFree(fs, Followed(r))
  }

  /** No call that installing the item makes leads over a symbolic link. */
  ghost predicate Plain(env: Env, fs: FS, e: Entry) {
    LibrariesPlain(env, fs, e) && (Plan(env, fs, e).Some? ==> CrossesNoLink(fs, Plan(env, fs, e).value))
  }

  // --- Installing -------------------------------------------------------------------------------

  /** A link appears where nothing was; its name is understood in the directory changed to. */
  ghost predicate LinkStep(env: Env, fs: FS, act: Act, ok: bool, now: FS)
    requires act.PutLink?
  {
    if ok then
      && Reached(fs, act.dir) && IsDir(fs, act.dir.at)
      && CanCreate(env, fs, act.name) && now == fs[act.name.at := Link(act.text)]
    else now == fs
  }

  /** The directories on the way are made where possible; then the owner is set if it is not the process's. */
  ghost predicate DirStep(env: Env, fs: FS, act: Act, ok: bool, now: FS)
    requires act.PutDir?
  {
    var made := MkDirs(env, fs, act.chain, NewDir(env, act.perm));
    if ok && env.uid != act.uid then
      env.uid == 0 && CanChown(made, act.seen) && now == made[act.seen.at := Chowned(made[act.seen.at], act.uid, act.gid)]
    else now == made && (!ok ==> env.uid != act.uid)
  }

  ghost predicate ActStep(env: Env, fs: FS, act: Act, ok: bool, now: FS) {
    match act
    case PutFile(src, tmp, dst, uid, gid, perm) => CopyStep(env, fs, src, tmp, dst, uid, gid, perm, ok, now)
    case PutLink(_, _, _, _) => LinkStep(env, fs, act, ok, now)
    case PutDir(_, _, _, _, _, _) => DirStep(env, fs, act, ok, now)
  }

  /**
   install: never a fatal status, and no change at all when there is no plan. Nothing more is said of an
   item that leads over a link.
   */
  ghost predicate InstallStep(env: Env, fs: FS, e: Entry, status: Status, now: FS) {
    && status != FATAL
    && (Plain(env, fs, e) ==>
          var plan := Plan(env, fs, e);
          if plan.None? then status == ERROR && now == fs
          else ActStep(env, fs, plan.value, status == OK, now))
  }

  /** The file system allows all that the act asks for. A directory that cannot be made is no obstacle. */
  ghost predicate ActAllowed(env: Env, fs: FS, act: Act) {
    match act
    case PutFile(src, tmp, dst, uid, _, _) => CopyAllowed(env, fs, src, tmp, dst, uid)
    case PutLink(dir, name, _, _) => Reached(fs, dir) && IsDir(fs, dir.at) && CanCreate(env, fs, name)
    case PutDir(chain, seen, _, uid, _, perm) =>
      env.uid == uid || (env.uid == 0 && CanChown(MkDirs(env, fs, chain, NewDir(env, perm)), seen))
  }

  /** What is allowed succeeds. */
  ghost predicate Answers(env: Env, fs: FS, e: Entry, status: Status) {
    Plain(env, fs, e) && Plan(env, fs, e).Some? && ActAllowed(env, fs, Plan(env, fs, e).value) ==> status == OK
  }

  lemma {:induction false} CopyKeepsDirs(env: Env, fs: FS, src: Route, tmp: Route, dst: Route, uid: int, gid: int,
                                         perm: Mode, ok: bool, now: FS)
    requires TreeOk(fs) && CopyStep(env, fs, src, tmp, dst, uid, gid, perm, ok, now)
    ensures TreeOk(now)
    ensures forall p :: IsDir(fs, p) ==> IsDir(now, p)
  {
    forall p | p in now && p != [] ensures ParentIsDir(now, p) {
      assert ParentIsDir(fs, p);
    }
  }

  /** Installing an item, with or without success, keeps a tree and every directory in it. */
  lemma {:induction false} ActKeepsDirs(env: Env, fs: FS, act: Act, ok: bool, now: FS)
    requires TreeOk(fs) && ActStep(env, fs, act, ok, now)
    ensures TreeOk(now)
    ensures forall p :: IsDir(fs, p) ==> IsDir(now, p)
  {
    match act
    case PutFile(src, tmp, dst, uid, gid, perm) =>
      CopyKeepsDirs(env, fs, src, tmp, dst, uid, gid, perm, ok, now);
    case PutLink(_, name, _, text) =>
      if ok { TreeWith(fs, name.at, Link(text)); }
    case PutDir(chain, seen, _, uid, gid, perm) =>
      MkDirsFrame(env, fs, chain, NewDir(env, perm));
      var made := MkDirs(env, fs, chain, NewDir(env, perm));
      assert forall p :: p in fs ==> At(made, p) == At(fs, p);
      if now != made { TreeWith(made, seen.at, Chowned(made[seen.at], uid, gid)); }
  }

  /** With or without success, the only link that appears is the one that a link item asks for. */
  lemma {:induction false} NewLinksOnly(env: Env, fs: FS, act: Act, ok: bool, now: FS, p: Path)
    requires TreeOk(fs) && ActStep(env, fs, act, ok, now)
    requires IsLink(now, p) && !IsLink(fs, p)
    ensures act.PutLink? && p == act.name.at
  {
    if act.PutDir? { MkDirsMakeNoLinks(env, fs, act.chain, NewDir(env, act.perm)); }
  }

  lemma {:induction false} MkDirsMakeNoLinks(env: Env, fs: FS, chain: seq<Route>, node: Node)
    requires TreeOk(fs) && node.Dir?
    ensures forall p :: IsLink(MkDirs(env, fs, chain, node), p) ==> IsLink(fs, p)
  {
    MkDirsFrame(env, fs, chain, node);
    forall p | p in fs && IsLink(MkDirs(env, fs, chain, node), p) ensures IsLink(fs, p) {
      assert At(MkDirs(env, fs, chain, node), p) == At(fs, p);
    }
  }

  // --- Deinstalling -----------------------------------------------------------------------------

  datatype Removal = RemoveLeaf(way: Route) | RemoveDir(way: Route)

  function RemovalOf(env: Env, t: Target): Removal {
    match t
    case CopyTarget(_, dst) => RemoveLeaf(FileRoute(env.cwd, dst))
    case LinkTarget(_, _, _) => RemoveLeaf(JoinedRoute(env, t))
    case DirTarget(dir) => RemoveDir(DirRoute(env.cwd, dir))
  }

  predicate CanRemove(env: Env, fs: FS, r: Removal) {
    match r
    case RemoveLeaf(way) => CanUnlink(env, fs, way)
    case RemoveDir(way) => CanRmdir(env, fs, way)
  }

  function Remove(env: Env, fs: FS, r: Removal): FS {
    if CanRemove(env, fs, r) then fs - {r.way.at} else fs
  }

  /** deinstall: the file system afterwards. */
  function Deinstalled(env: Env, fs: FS, e: Entry): FS {
    var t := Translate(env, fs, e);
    if t.None? then fs else Remove(env, fs, RemovalOf(env, t.value))
  }

  function DeinstallStatus(env: Env, fs: FS, e: Entry): Status {
    var t := Translate(env, fs, e);
    if t.Some? && CanRemove(env, fs, RemovalOf(env, t.value)) then OK else ERROR
  }

  /** Neither the removal of the item nor the reading of its library files leads over a link. */
  ghost predicate RemovalPlain(env: Env, fs: FS, e: Entry) {
    && LibrariesPlain(env, fs, e)
    && (Translate(env, fs, e).Some? ==> LinkFree(fs, RemovalOf(env, Translate(env, fs, e).value).way.through))
  }

  /** deinstall; nothing is said of an item whose removal leads over a link. */
  ghost predicate DeinstallStep(env: Env, fs: FS, e: Entry, now: FS) {
    RemovalPlain(env, fs, e) ==> now == Deinstalled(env, fs, e)
  }

  /** The removal that undoes an act. */
  function Undo(act: Act): Removal {
    match act
    case PutFile(_, _, dst, _, _, _) => RemoveLeaf(dst)
    case PutLink(_, _, gone, _) => RemoveLeaf(gone)
    case PutDir(_, _, gone, _, _, _) => RemoveDir(gone)
  }

  /** The place of an act: where it is undone. */
  function Spot(act: Act): Path {
    Undo(act).way.at
  }

  /** An act is undone in the place where it puts something. */
  predicate SameSpot(act: Act) {
    match act
    case PutFile(_, _, _, _, _, _) => true
    case PutLink(_, name, gone, _) => name.at == gone.at
    case PutDir(_, seen, gone, _, _, _) => seen.at == gone.at
  }

  /** Removing an item is undoing the act that it means. */
  lemma {:induction false} RemovalUndoes(env: Env, fs: FS, e: Entry)
    requires Plan(env, fs, e).Some?
    ensures RemovalOf(env, Translate(env, fs, e).value) == Undo(Plan(env, fs, e).value)
    ensures SameSpot(Plan(env, fs, e).value) <==>
              InstallPath(env, Translate(env, fs, e).value) == RemovePath(env, Translate(env, fs, e).value)
  {
  }

  // --- Runs ---------------------------------------------------------------------------------------

  /** One call of install for each item, in order, whatever each reports. */
  ghost predicate InstallRun(env: Env, items: seq<Entry>, statuses: seq<Status>, states: seq<FS>) {
    && |statuses| == |items| && |states| == |items| + 1
    && forall i :: 0 <= i < |items| ==> InstallStep(env, states[i], items[i], statuses[i], states[i + 1])
  }

  /** One call of deinstall for each item, from the last to the first. */
  ghost predicate DeinstallRun(env: Env, items: seq<Entry>, states: seq<FS>) {
    && |states| == |items| + 1
    && forall k :: 0 <= k < |items| ==> DeinstallStep(env, states[k], items[|items| - 1 - k], states[k + 1])
  }

  /** No act leads over what is a link at the start or over what another one makes a link. */
  ghost predicate NoLinksCrossed(acts: seq<Act>, start: FS) {
    forall act, p :: act in acts && Crosses(act, p) ==> !IsLink(start, p) && !LinkedByItem(acts, p)
  }

  ghost predicate LinkedByItem(acts: seq<Act>, p: Path) {
    exists act :: act in acts && act.PutLink? && act.name.at == p
  }

  /** Links are those from the start or those that items have made. */
  ghost predicate LinksKnown(acts: seq<Act>, start: FS, fs: FS) {
    forall p :: IsLink(fs, p) ==> IsLink(start, p) || LinkedByItem(acts, p)
  }

  lemma {:induction false} LinksStayKnown(env: Env, acts: seq<Act>, start: FS, fs: FS, act: Act, ok: bool, now: FS)
    requires TreeOk(fs) && act in acts && LinksKnown(acts, start, fs) && ActStep(env, fs, act, ok, now)
    ensures LinksKnown(acts, start, now)
  {
    forall p | IsLink(now, p) && !IsLink(fs, p) ensures LinkedByItem(acts, p) {
      NewLinksOnly(env, fs, act, ok, now, p);
    }
  }

  // --- Checking ---------------------------------------------------------------------------------

  predicate ModeAndOwnerAre(node: Node, perm: Mode, uid: int, gid: int) {
    !node.Link? && node.mode & CHECKED_MODE == perm && node.uid == uid && node.gid == gid
  }

  /** install_file_check of a file: the sizes, the mode bits looked at, owner and group. */
  predicate FileChecks(fs: FS, src: Route, dst: Route, uid: int, gid: int, perm: Mode) {
    && Reached(fs, src) && src.at in fs && fs[src.at].File?
    && Reached(fs, dst) && dst.at in fs && fs[dst.at].File?
    && |fs[src.at].content| == |fs[dst.at].content|
    && ModeAndOwnerAre(fs[dst.at], perm, uid, gid)
  }

  /** install_file_check of a directory: that it is one is not looked at. */
  predicate EntryChecks(fs: FS, r: Route, uid: int, gid: int, perm: Mode) {
    Seen(fs, r).Some? && ModeAndOwnerAre(Seen(fs, r).value, perm, uid, gid)
  }

  predicate ActChecks(fs: FS, act: Act)
    requires !act.PutLink?
  {
    match act
    case PutFile(src, _, dst, uid, gid, perm) => FileChecks(fs, src, dst, uid, gid, perm)
    case PutDir(_, seen, _, uid, gid, perm) => EntryChecks(fs, seen, uid, gid, perm)
  }
}
