/**
 The operator tables of install-core.c, and install, install_check and deinstall, which go through them.

 Every entry point is proved to take a step of Steps.dfy, judged by the item as it was declared:
 what earlier items left in the static buffers makes no difference.
 */
module Engine {
  import opened Wrappers
  import opened Paths
  import opened FileSystem
  import opened Items
  import opened FileCopy
  import opened MakeDirectories
  import opened Steps
  import opened HostSystem
  import opened Translation

  /** What performing an item may do once its names are those of `t`. */
  ghost predicate Performed(env: Env, fs: FS, e: Entry, t: Target, status: Status, now: FS) {
    && status != FATAL
    && match t
       case CopyTarget(src, dst) =>
         if OwnersKnown(env, e) then ActStep(env, fs, CopyAct(env, e, src, dst), status == OK, now)
         else status == ERROR && now == fs
       case LinkTarget(_, _, _) => ActStep(env, fs, LinkAct(env, t), status == OK, now)
       case DirTarget(dir) =>
         if OwnersKnown(env, e) && |dir| < MAX_PATHLEN then ActStep(env, fs, DirAct(env, e, dir), status == OK, now)
         else status == ERROR && now == fs
  }

  /** The owners are known and the file system allows what performing an item asks for. */
  ghost predicate Performable(env: Env, fs: FS, e: Entry, t: Target) {
    match t
    case CopyTarget(src, dst) => OwnersKnown(env, e) && ActAllowed(env, fs, CopyAct(env, e, src, dst))
    case LinkTarget(_, _, _) => ActAllowed(env, fs, LinkAct(env, t))
    case DirTarget(dir) => OwnersKnown(env, e) && |dir| < MAX_PATHLEN && ActAllowed(env, fs, DirAct(env, e, dir))
  }

  /** However performing an item ends, the directories that were there are still there. */
  lemma {:induction false} PerformedKeepsDirs(env: Env, fs: FS, e: Entry, t: Target, status: Status, now: FS)
    requires TreeOk(fs) && Performed(env, fs, e, t, status, now)
    ensures forall p :: IsDir(fs, p) ==> IsDir(now, p)
  {
    match t
    case CopyTarget(src, dst) =>
      if OwnersKnown(env, e) { ActKeepsDirs(env, fs, CopyAct(env, e, src, dst), status == OK, now); }
    case LinkTarget(_, _, _) => ActKeepsDirs(env, fs, LinkAct(env, t), status == OK, now);
    case DirTarget(dir) =>
      if OwnersKnown(env, e) && |dir| < MAX_PATHLEN { ActKeepsDirs(env, fs, DirAct(env, e, dir), status == OK, now); }
  }

  /** What a dry run reports of an item whose names are those of `t`: owners and a link's directory are looked at. */
  ghost predicate Rehearsed(env: Env, fs: FS, e: Entry, t: Target, status: Status) {
    && status != FATAL
    && if t.LinkTarget? then
         status == OK ==> Reached(fs, FileRoute(env.cwd, t.dir)) && IsDir(fs, Canon(env.cwd, t.dir))
       else status == OK <==> OwnersKnown(env, e)
  }

  /** A dry run reports but changes nothing. */
  ghost predicate DryStep(env: Env, fs: FS, e: Entry, status: Status, now: FS) {
    && now == fs && status != FATAL
    && (Plain(env, fs, e) ==>
          var t := Translate(env, fs, e);
          if t.None? then status == ERROR else Rehearsed(env, fs, e, t.value, status))
  }

  ghost predicate InstallOutcome(env: Env, fs: FS, e: Entry, dryRun: bool, status: Status, now: FS) {
    if dryRun then DryStep(env, fs, e, status, now) else InstallStep(env, fs, e, status, now)
  }

  /** The check of the item does not look over a link: only what a link item has made may be one. */
  ghost predicate CheckPlain(env: Env, fs: FS, e: Entry) {
    var t := Translate(env, fs, e);
    && LibrariesPlain(env, fs, e)
    && (t.Some? ==>
          match t.value
          case CopyTarget(src, dst) => LinkFree(fs, Followed(FileRoute(env.cwd, src)) + Followed(FileRoute(env.cwd, dst)))
          case LinkTarget(_, _, _) => LinkFree(fs, JoinedRoute(env, t.value).through)
          case DirTarget(dir) => LinkFree(fs, Followed(FileRoute(env.cwd, dir))))
  }

  /**
   What install_check reports. Only a failed check of the file is counted; an item that cannot be
   translated or whose owner is unknown is an error that does not count. The size of a directory and
   what a link leads to are not modelled, so such entries may pass or fail.
   */
  ghost predicate CheckStep(env: Env, fs: FS, e: Entry, status: Status, counted: bool) {
    && status != FATAL && (counted ==> status == ERROR)
    && (CheckPlain(env, fs, e) ==>
          var t := Translate(env, fs, e);
          if t.None? || !OwnersKnown(env, e) then status == ERROR && !counted
          else (counted <==> status == ERROR) && TargetChecks(env, fs, e, t.value, status == OK))
  }

  /** The outcome of a check of names that have been translated. */
  ghost predicate TargetChecks(env: Env, fs: FS, e: Entry, t: Target, ok: bool)
    requires OwnersKnown(env, e)
  {
    var uid, gid := Owner(env, e).value, Group(env, e).value;
    match t
    case CopyTarget(src, dst) => FileCheckResult(fs, FileRoute(env.cwd, src), FileRoute(env.cwd, dst), uid, gid, e.perm, ok)
    case LinkTarget(_, _, _) => EntryCheckResult(fs, JoinedRoute(env, t), uid, gid, e.perm, ok)
    case DirTarget(dir) => EntryCheckResult(fs, FileRoute(env.cwd, dir), uid, gid, e.perm, ok)
  }

  ghost predicate FileCheckResult(fs: FS, src: Route, dst: Route, uid: int, gid: int, perm: Mode, ok: bool) {
    && (Seen(fs, src).None? || Seen(fs, dst).None? ==> !ok)
    && (ok ==> EntryCheckResult(fs, dst, uid, gid, perm, ok))
    && (IsFile(Seen(fs, src)) && IsFile(Seen(fs, dst)) ==> (ok <==> FileChecks(fs, src, dst, uid, gid, perm)))
  }

  predicate IsFile(node: Option<Node>) {
    node.Some? && node.value.File?
  }

  /** A link may lead anywhere. */
  ghost predicate EntryCheckResult(fs: FS, r: Route, uid: int, gid: int, perm: Mode, ok: bool) {
    Seen(fs, r).None? || !Seen(fs, r).value.Link? ==> (ok <==> EntryChecks(fs, r, uid, gid, perm))
  }

  lemma {:induction false} DirPerformed(env: Env, fs: FS, e: Entry, t: Target, between: FS, ok: bool, now: FS)
    requires t.DirTarget? && OwnersKnown(env, e) && |t.dir| < MAX_PATHLEN
    requires Made(env, fs, MkdirStrings(t.dir), e.perm, between)
    requires var uid, gid, r := Owner(env, e).value, Group(env, e).value, FileRoute(env.cwd, t.dir);
             if ok && env.uid != uid then
               env.uid == 0 && CanChown(between, r) && now == between[r.at := Chowned(between[r.at], uid, gid)]
             else now == between && (!ok ==> env.uid != uid)
    ensures Performed(env, fs, e, t, if ok then OK else ERROR, now)
  {
  }

  class Installer {
    const host: Host
    const names: Translator
    var failed: nat

    constructor (names: Translator)
      requires names.Valid() && EnvOk(names.host.env)
      ensures Valid() && this.names == names && host == names.host && failed == 0
    {
      this.names := names;
      host := names.host;
      failed := 0;
    }

    ghost predicate Valid()
      reads this, names, names.host
    {
      host == names.host && names.Valid() && EnvOk(host.env)
    }

    /** install_uidgid_lookup. */
    method LookupOwners(item: Item) returns (ids: Option<(int, int)>)
      ensures var uid, gid := Lookup(item.owner, host.env.users, host.env.uid), Lookup(item.group, host.env.groups, host.env.gid);
              && (ids.Some? <==> uid.Some? && gid.Some?)
              && (ids.Some? ==> ids.value == (uid.value, gid.value))
    {
      var uid := Lookup(item.owner, host.env.users, host.env.uid);
      if uid.None? { return None; }
      var gid := Lookup(item.group, host.env.groups, host.env.gid);
      if gid.None? { return None; }
      ids := Some((uid.value, gid.value));
    }

    // --- install_opers --------------------------------------------------------------------------

    method InstCopy(item: Item, dryRun: bool, ghost e: Entry, ghost t: Target) returns (status: Status)
      requires Valid() && IsRowOf(item, e) && t.CopyTarget? && names.Names(item, t)
      modifies host`fs, host`log, host`calls
      ensures Valid() && (dryRun ==> host.fs == old(host.fs) && Rehearsed(host.env, host.fs, e, t, status))
      ensures !dryRun ==> Performed(host.env, old(host.fs), e, t, status, host.fs)
      ensures old(host.calls) <= host.calls
      ensures !dryRun && status == ERROR ==>
                Unlucky(host.luck, old(host.calls), host.calls) || !Performable(host.env, old(host.fs), e, t)
    {
      var ids := LookupOwners(item);
      if ids.None? { return ERROR; }
      status := OK;
      if !dryRun {
        var ok := InstallFileCopy(host, names.Deref(item.src), names.Deref(item.dst), ids.value.0, ids.value.1, item.perm);
        if !ok { status := ERROR; }
      }
    }

    method InstLink(item: Item, dryRun: bool, ghost e: Entry, ghost t: Target) returns (status: Status)
      requires Valid() && IsRowOf(item, e) && t.LinkTarget? && names.Names(item, t)
      requires IsDir(host.fs, host.cwd)
      modifies host`fs, host`log, host`calls, host`cwd
      ensures Valid() && host.cwd == old(host.cwd) && (dryRun ==> host.fs == old(host.fs) && Rehearsed(host.env, host.fs, e, t, status))
      ensures !dryRun ==> Performed(host.env, old(host.fs), e, t, status, host.fs)
      ensures old(host.calls) <= host.calls
      ensures !dryRun && status == ERROR ==>
                Unlucky(host.luck, old(host.calls), host.calls) || !Performable(host.env, old(host.fs), e, t)
    {
      var text, name := names.Deref(item.src), names.Deref(item.dst);
      var home := host.GetCwd();
      if home.None? { return ERROR; }
      var ok := host.ChangeDir(names.Deref(item.dir));
      if !ok { return ERROR; }
      var made := true;
      if !dryRun { made := host.MakeLink(text, name); }
      ok := host.GoBack(home.value);
      if !ok { assert false; }
      status := if made then OK else ERROR;
    }

    method InstMkdir(item: Item, dryRun: bool, ghost e: Entry, ghost t: Target) returns (status: Status)
      requires Valid() && IsRowOf(item, e) && t.DirTarget? && names.Names(item, t) && '\0' !in t.dir
      modifies host`fs, host`log, host`calls
      ensures Valid() && (dryRun ==> host.fs == old(host.fs) && Rehearsed(host.env, host.fs, e, t, status))
      ensures !dryRun ==> Performed(host.env, old(host.fs), e, t, status, host.fs)
      ensures old(host.calls) <= host.calls
      ensures !dryRun && status == ERROR ==>
                Unlucky(host.luck, old(host.calls), host.calls) || !Performable(host.env, old(host.fs), e, t)
    {
      var ids := LookupOwners(item);
      if ids.None? { return ERROR; }
      if dryRun { return OK; }
      var dir := names.Deref(item.dir);
      var uid, gid := ids.value.0, ids.value.1;
      var ok, made := MakePath(host, dir, item.perm);
      if !ok { return ERROR; }
      ghost var between := host.fs;
      ok := OwnDirectory(dir, uid, gid);
      status := if ok then OK else ERROR;
      DirPerformed(host.env, old(host.fs), e, t, between, ok, host.fs);
    }

    /** The second half of inst_mkdir: the owner and group of the directory. */
    method OwnDirectory(dir: string, uid: int, gid: int) returns (ok: bool)
      requires Valid()
      modifies host`fs, host`log, host`calls
      ensures Valid() && (!ok ==> host.env.uid != uid && host.fs == old(host.fs))
      ensures ok && host.env.uid == uid ==> host.fs == old(host.fs)
      ensures old(host.calls) <= host.calls
      ensures !ok ==> || Unlucky(host.luck, old(host.calls), host.calls)
                      || host.env.uid != 0 || !CanChown(old(host.fs), host.Way(dir))
      ensures ok && host.env.uid != uid ==>
                && host.env.uid == 0 && CanChown(old(host.fs), host.Way(dir))
                && host.fs == old(host.fs)[host.Way(dir).at := Chowned(old(host.fs)[host.Way(dir).at], uid, gid)]
    {
      ok := true;
      if host.env.uid != uid {
        if host.env.uid != 0 { return false; }
        ok := host.SetOwner(dir, uid, gid);
      }
    }

    /** install. */
    method Install(item: Item, dryRun: bool) returns (status: Status)
      requires Valid() && item.Fresh() && ItemOk(item.Declared())
      requires IsDir(host.fs, host.cwd)
      modifies host`fs, host`log, host`calls, host`cwd, names`statics, item
      ensures Valid() && host.cwd == old(host.cwd) && IsDir(host.fs, host.cwd)
      ensures InstallOutcome(host.env, old(host.fs), old(item.Declared()), dryRun, status, host.fs)
      ensures old(host.calls) <= host.calls
      ensures !dryRun && !Unlucky(host.luck, old(host.calls), host.calls) ==>
                Answers(host.env, old(host.fs), old(item.Declared()), status)
    {
      ghost var e := item.Declared();
      var ok := names.TranslateItem(item);
      if !ok { return ERROR; }
      ghost var fs := host.fs;
      ghost var t := Translate(host.env, fs, e).value;
      match item.op {
        case Copy | CopyExec => status := InstCopy(item, dryRun, e, t);
        case Symlink | Liblink => status := InstLink(item, dryRun, e, t);
        case Mkdir => RootedIsCString(host.env, e); status := InstMkdir(item, dryRun, e, t);
      }
      if !dryRun { PerformedKeepsDirs(host.env, fs, e, t, status, host.fs); }
    }

    // --- deinst_opers ---------------------------------------------------------------------------

    /** deinstall: what is removed and whether, unless it is a dry run, which only translates. */
    method Deinstall(item: Item, dryRun: bool) returns (status: Status)
      requires Valid() && item.Fresh() && ItemOk(item.Declared())
      modifies host`fs, host`log, names`statics, item
      ensures Valid() && status != FATAL
      ensures dryRun ==> host.fs == old(host.fs)
      ensures !dryRun ==> DeinstallStep(host.env, old(host.fs), old(item.Declared()), host.fs)
      ensures RemovalPlain(host.env, old(host.fs), old(item.Declared())) ==>
                if dryRun then status == OK <==> Translate(host.env, host.fs, old(item.Declared())).Some?
                else status == DeinstallStatus(host.env, old(host.fs), old(item.Declared()))
      ensures !dryRun && RemovalPlain(host.env, old(host.fs), old(item.Declared())) ==>
                var t := Translate(host.env, old(host.fs), old(item.Declared()));
                status == OK <==> t.Some? && RemovePath(host.env, t.value) in old(host.fs) && RemovePath(host.env, t.value) !in host.fs
    {
      var ok := names.TranslateItem(item);
      if !ok { return ERROR; }
      if dryRun { return OK; }
      match item.op {
        case Copy | CopyExec => ok := host.Unlink(names.Deref(item.dst));
        case Mkdir => ok := host.RemoveDir(names.Deref(item.dir));
        case Symlink | Liblink => ok := host.Unlink(Format(names.Deref(item.dir) + "/" + names.Deref(item.dst)));
      }
      status := if ok then OK else ERROR;
    }

    // --- instchk_opers --------------------------------------------------------------------------

    /** file_size: known for a file; anything for what else is there. */
    method FileSize(path: string) returns (size: Option<nat>)
      ensures size.None? <==> host.Stat(path).None?
      ensures size.Some? && host.Stat(path).value.File? ==> size.value == |host.Stat(path).value.content|
    {
      match host.Stat(path)
      case None => size := None;
      case Some(node) =>
        if node.File? {
          size := Some(|node.content|);
        } else {
          var n: nat := *;
          size := Some(n);
        }
    }

    /** The mode and ownership part of install_file_check; a link may lead anywhere. */
    method CheckModeAndOwner(path: string, perm: Mode, uid: int, gid: int) returns (ok: bool)
      ensures host.Stat(path).None? ==> !ok
      ensures EntryCheckResult(host.fs, host.Way(path), uid, gid, perm, ok)
    {
      match host.Stat(path)
      case None => ok := false;
      case Some(node) =>
        if node.Link? {
          ok := *;
        } else {
          ok := node.mode & CHECKED_MODE == perm;
          if ok { ok := uid == node.uid; }
          if ok { ok := gid == node.gid; }
        }
    }

    method CheckFile(src: string, dst: string, perm: Mode, uid: int, gid: int) returns (ok: bool)
      ensures FileCheckResult(host.fs, host.Way(src), host.Way(dst), uid, gid, perm, ok)
      ensures IsFile(host.Stat(src)) && IsFile(host.Stat(dst)) ==>
                var want, got := host.Stat(src).value, host.Stat(dst).value;
                ok <==> && |got.content| == |want.content| && got.mode & 0x1ED == perm
                        && got.uid == uid && got.gid == gid
    {
      var want := FileSize(src);
      if want.None? { return false; }
      var got := FileSize(dst);
      if got.None? { return false; }
      if want.value != got.value { return false; }
      ok := CheckModeAndOwner(dst, perm, uid, gid);
    }

    /** install_check: `failed` counts the checks of files that fail. */
    method Check(item: Item) returns (status: Status)
      requires Valid() && item.Fresh() && ItemOk(item.Declared())
      modifies this`failed, names`statics, item
      ensures Valid() && old(failed) <= failed <= old(failed) + 1
      ensures CheckStep(host.env, host.fs, old(item.Declared()), status, failed > old(failed))
    {
      var ok := names.TranslateForCheck(item);
      if !ok { return ERROR; }
      var ids := LookupOwners(item);
      if ids.None? { return ERROR; }
      var uid, gid := ids.value.0, ids.value.1;
      match item.op {
        case Copy | CopyExec => ok := CheckFile(names.Deref(item.src), names.Deref(item.dst), item.perm, uid, gid);
        case Mkdir => ok := CheckModeAndOwner(names.Deref(item.dir), item.perm, uid, gid);
        case Symlink | Liblink => ok := CheckModeAndOwner(names.Deref(item.dst), item.perm, uid, gid);
      }
      if !ok { failed := failed + 1; }
      status := if ok then OK else ERROR;
    }
  }

  /** The parts of an item that no procedure rewrites. */
  predicate IsRowOf(item: Item, e: Entry) {
    item.op == e.op && item.owner == e.owner && item.group == e.group && item.perm == e.perm
  }

  lemma {:induction false} RootedIsCString(env: Env, e: Entry)
    requires EnvOk(env) && ItemOk(e) && e.dir.Some?
    ensures '\0' !in RootedDir(env, e.dir.value)
  {
  }
}
